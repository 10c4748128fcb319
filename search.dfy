/**
 * The bounded search tree of Gramm, Niedermeier and Rossmanith for the Closest String
 * Problem: from a candidate s and an edit budget d, look for a string within radius D
 * of every input string that is at most d single-character substitutions away from s.
 * The input set S and the radius D are parameters; "not found" is None.
 */
module BoundedSearch {
  import opened Wrappers
  import opened Hamming

  /** Every input string has the candidate's length. */
  predicate SameLength(S: seq<string>, s: string)
  {
    forall i :: 0 <= i < |S| ==> |S[i]| == |s|
  }

  /** t is a solution of the instance (S, D): within distance D of every input string. */
  predicate Solves(S: seq<string>, D: nat, t: string)
  {
    forall i :: 0 <= i < |S| ==> |S[i]| == |t| && Dist(t, S[i]) <= D
  }

  /** Some input string is farther than bound from s by the source's oracle (which answers -1,
      never "too far", for a string of another length). */
  predicate TooFar(S: seq<string>, s: string, bound: int)
  {
    exists i :: 0 <= i < |S| && Ham(s, S[i]) > bound
  }

  /** Index of the witness the source picks among the first n inputs: the last of them that
      the oracle puts farther than D from s. */
  function LastFar(S: seq<string>, D: nat, s: string, n: nat): (w: Option<nat>)
    requires n <= |S|
    ensures w.None? <==> forall i :: 0 <= i < n ==> Ham(s, S[i]) <= D
    ensures w.Some? ==> w.value < n && |S[w.value]| == |s| && Dist(s, S[w.value]) > D
    ensures w.Some? ==> forall j :: w.value < j < n ==> Ham(s, S[j]) <= D
  {
    if n == 0 then None
    else if Ham(s, S[n - 1]) > D then Some(n - 1)
    else LastFar(S, D, s, n - 1)
  }

  /** The witness the source picks: the last input farther than D from s. */
  function Witness(S: seq<string>, D: nat, s: string): Option<nat>
  {
    LastFar(S, D, s, |S|)
  }

  /** The branch points: the first D + 1 positions at which s and the witness w differ. */
  function BranchPositions(s: string, w: string, D: nat): (ps: seq<nat>)
    requires |s| == |w| && Dist(s, w) > D
    ensures |ps| == D + 1
    ensures forall k :: 0 <= k < |ps| ==> ps[k] < |s|
  {
    Mismatches(s, w)[..D + 1]
  }

  /** The child candidate for branch point p: a copy of s with the witness's character at p. */
  function Child(s: string, w: string, p: nat): (c: string)
    requires |s| == |w| && p < |s|
    ensures |c| == |s|
  {
    s[p := w[p]]
  }

  /** A measure of the budget that is a natural number even for a negative budget. */
  function Budget(d: int): nat
  {
    if d < 0 then 0 else d + 1
  }

  /** What the search returns from candidate s with budget d. */
  function Search(S: seq<string>, D: nat, s: string, d: int): Option<string>
    decreases Budget(d), 1, 0
  {
    if d < 0 then None
    else if TooFar(S, s, D + d) then None
    else match Witness(S, D, s)
      case None => Some(s)
      case Some(w) => TryBranches(S, D, s, d, S[w], BranchPositions(s, S[w], D))
  }

  /** Tries the branch points ps in order, searching each child with budget d - 1; the first
      success is the answer. */
  function TryBranches(S: seq<string>, D: nat, s: string, d: int, w: string, ps: seq<nat>): Option<string>
    requires |w| == |s| && d >= 0
    requires forall k :: 0 <= k < |ps| ==> ps[k] < |s|
    decreases Budget(d), 0, |ps|
  {
    if |ps| == 0 then None
    else
      var r := Search(S, D, Child(s, w, ps[0]), d - 1);
      if r.Some? then r else TryBranches(S, D, s, d, w, ps[1..])
  }

  /** The source's recursive search: give up on a negative budget, scan the inputs for pruning
      and for a witness, list the mismatches with the witness, keep the first D + 1 of them and
      try each one-character edit. */
  method ClosestString(S: seq<string>, D: nat, s: string, d: int) returns (r: Option<string>)
    ensures r == Search(S, D, s, d)
    ensures SameLength(S, s) && r.Some? ==> |r.value| == |s| && Solves(S, D, r.value)
    decreases Budget(d), 1
  {
    if d < 0 {
      return None;
    }
    var pruned, solved, compare := ScanInputs(S, D, s, d);
    if pruned {
      return None;
    }
    if solved {
      return Some(s);
    }
    var mismatches := ListMismatches(s, compare);
    // the witness is farther than D, so there are at least D + 1 mismatches to keep
    mismatches := mismatches[..D + 1];
    SearchTakesBranches(S, D, s, d);
    r := TryEachBranch(S, D, s, d, compare, mismatches);
  }

  /** The loop of the search that compares the candidate with every input string: it reports
      whether some input is beyond D + d (the source returns "not found" at once), whether
      all are within D, and otherwise the last input farther than D as the witness. */
  method ScanInputs(S: seq<string>, D: nat, s: string, d: int) returns (pruned: bool, solved: bool, compare: string)
    ensures pruned <==> TooFar(S, s, D + d)
    ensures !pruned ==> (solved <==> Witness(S, D, s).None?)
    ensures !pruned && !solved ==> Witness(S, D, s).Some? && compare == S[Witness(S, D, s).value]
  {
    solved, compare := true, "";
    for i := 0 to |S|
      invariant forall j :: 0 <= j < i ==> Ham(s, S[j]) <= D + d
      invariant solved <==> LastFar(S, D, s, i).None?
      invariant !solved ==> compare == S[LastFar(S, D, s, i).value]
    {
      var dist := HammingDistance(s, S[i]);
      if dist > D + d {
        assert TooFar(S, s, D + d);
        return true, solved, compare;
      }
      if dist > D {
        compare := S[i];
        solved := false;
      }
    }
    assert !TooFar(S, s, D + d);
    pruned := false;
  }

  /** The loop of the search that lists, in ascending order, the positions where the
      candidate and the witness differ. */
  method ListMismatches(s: string, compare: string) returns (mismatches: seq<nat>)
    requires |s| == |compare|
    ensures mismatches == Mismatches(s, compare)
  {
    mismatches := [];
    for i := 0 to |s|
      invariant mismatches == Mismatches(s[..i], compare[..i])
    {
      assert s[..i + 1][..i] == s[..i] && compare[..i + 1][..i] == compare[..i];
      if s[i] != compare[i] {
        mismatches := mismatches + [i];
      }
    }
    assert s[..|s|] == s && compare[..|compare|] == compare;
  }

  /** The loop of the search over the branch points: copy the candidate, overwrite one position
      with the witness's character, recurse with budget d - 1, and stop at the first success. */
  method TryEachBranch(S: seq<string>, D: nat, s: string, d: int, compare: string, mismatches: seq<nat>)
    returns (r: Option<string>)
    requires |compare| == |s| && d >= 0
    requires forall k :: 0 <= k < |mismatches| ==> mismatches[k] < |s|
    ensures r == TryBranches(S, D, s, d, compare, mismatches)
    ensures SameLength(S, s) && r.Some? ==> |r.value| == |s| && Solves(S, D, r.value)
    decreases Budget(d), 0
  {
    for k := 0 to |mismatches|
      invariant TryBranches(S, D, s, d, compare, mismatches) == TryBranches(S, D, s, d, compare, mismatches[k..])
    {
      var x := mismatches[k];
      var newCandidate := s;
      newCandidate := newCandidate[x := compare[x]];
      var sol := ClosestString(S, D, newCandidate, d - 1);
      TryBranchesUnfold(S, D, s, d, compare, mismatches[k..]);
      assert mismatches[k..][0] == x && mismatches[k..][1..] == mismatches[k + 1..];
      if sol.Some? {
        return sol;
      }
    }
    assert mismatches[|mismatches|..] == [];
    return None;
  }

  /** With a budget left, no input beyond D + d and a witness, the search tries the branch points. */
  lemma SearchTakesBranches(S: seq<string>, D: nat, s: string, d: int)
    requires d >= 0 && !TooFar(S, s, D + d) && Witness(S, D, s).Some?
    ensures Search(S, D, s, d)
         == TryBranches(S, D, s, d, S[Witness(S, D, s).value], BranchPositions(s, S[Witness(S, D, s).value], D))
  {
  }

  /** The search stops early: with a negative budget, when some input is beyond D + d, and
      (with a budget left) when every input is already within D, returning s itself. */
  lemma SearchShortCircuits(S: seq<string>, D: nat, s: string, d: int)
    ensures d < 0 ==> Search(S, D, s, d) == None
    ensures TooFar(S, s, D + d) ==> Search(S, D, s, d) == None
    ensures d >= 0 && Solves(S, D, s) ==> Search(S, D, s, d) == Some(s)
  {
  }

  /** Each child candidate agrees with s except at the branch position, where it takes the
      witness's character; it is one step closer to the witness and one edit away from s. */
  lemma ChildCloserToWitness(s: string, w: string, p: nat)
    requires |s| == |w| && p < |s| && s[p] != w[p]
    ensures |Child(s, w, p)| == |s| && Child(s, w, p)[p] == w[p]
    ensures forall j :: 0 <= j < |s| && j != p ==> Child(s, w, p)[j] == s[j]
    ensures Dist(Child(s, w, p), w) == Dist(s, w) - 1
    ensures Dist(Child(s, w, p), s) == 1
  {
    DistUpdate(s, w, p, w[p]);
    DistUpdate(s, s, p, w[p]);
    DistZeroIffEqual(s, s);
  }

  /** The branch points are ascending, s and the witness differ at each of them, and they are
      the first D + 1 mismatches: no differing position before the last of them is skipped. */
  lemma BranchPositionsAreFirst(s: string, w: string, D: nat)
    requires |s| == |w| && Dist(s, w) > D
    ensures forall k :: 0 <= k < D + 1 ==> s[BranchPositions(s, w, D)[k]] != w[BranchPositions(s, w, D)[k]]
    ensures forall k, l :: 0 <= k < l < D + 1 ==> BranchPositions(s, w, D)[k] < BranchPositions(s, w, D)[l]
    ensures forall p :: 0 <= p <= BranchPositions(s, w, D)[D] && s[p] != w[p] ==> p in BranchPositions(s, w, D)
  {
    var ms := Mismatches(s, w);
    var ps := BranchPositions(s, w, D);
    MismatchesAscending(s, w);
    MismatchesComplete(s, w);
    forall p | 0 <= p <= ps[D] && s[p] != w[p]
      ensures p in ps
    {
      var k :| 0 <= k < |ms| && ms[k] == p;
      assert forall l :: D < l < |ms| ==> ms[D] < ms[l];
      assert k <= D;
      assert ps[k] == p;
    }
  }

  /** The bounded-search-tree argument: a solution t within D of the witness w (which is
      farther than D from s) agrees with w at one of the branch points, and the child for that
      point is one step closer to t. */
  lemma SolutionAgreesAtBranch(s: string, w: string, t: string, D: nat)
    requires |s| == |w| == |t| && Dist(s, w) > D && Dist(t, w) <= D
    ensures exists k :: 0 <= k < D + 1 && t[BranchPositions(s, w, D)[k]] == w[BranchPositions(s, w, D)[k]]
                        && Dist(Child(s, w, BranchPositions(s, w, D)[k]), t) == Dist(s, t) - 1
  {
    var ps := BranchPositions(s, w, D);
    BranchPositionsAreFirst(s, w, D);
    if forall k :: 0 <= k < |ps| ==> t[ps[k]] != w[ps[k]] {
      DistAtLeast(t, w, ps);
      assert false;
    }
    var k :| 0 <= k < |ps| && t[ps[k]] == w[ps[k]];
    DistUpdate(s, t, ps[k], w[ps[k]]);
  }

  /** Soundness: a string the search returns solves the instance, has the candidate's length,
      and is at most d substitutions away from the candidate. */
  lemma {:induction false} SearchSound(S: seq<string>, D: nat, s: string, d: int)
    requires SameLength(S, s)
    ensures Search(S, D, s, d).Some? ==>
      var t := Search(S, D, s, d).value;
      |t| == |s| && Solves(S, D, t) && Dist(t, s) <= d
    decreases Budget(d), 1, 0
  {
    if d >= 0 && !TooFar(S, s, D + d) {
      match Witness(S, D, s)
      case None =>
        DistZeroIffEqual(s, s);
      case Some(w) =>
        SearchTakesBranches(S, D, s, d);
        TryBranchesSound(S, D, s, d, S[w], BranchPositions(s, S[w], D));
    }
  }

  lemma {:induction false} TryBranchesSound(S: seq<string>, D: nat, s: string, d: int, w: string, ps: seq<nat>)
    requires SameLength(S, s) && |w| == |s| && d >= 0
    requires forall k :: 0 <= k < |ps| ==> ps[k] < |s|
    ensures TryBranches(S, D, s, d, w, ps).Some? ==>
      var t := TryBranches(S, D, s, d, w, ps).value;
      |t| == |s| && Solves(S, D, t) && Dist(t, s) <= d
    decreases Budget(d), 0, |ps|
  {
    if |ps| > 0 {
      var c := Child(s, w, ps[0]);
      TryBranchesUnfold(S, D, s, d, w, ps);
      SearchSound(S, D, c, d - 1);
      var r := Search(S, D, c, d - 1);
      if r.Some? {
        DistUpdate(s, s, ps[0], w[ps[0]]);
        DistZeroIffEqual(s, s);
        DistTriangle(r.value, c, s);
      } else {
        TryBranchesSound(S, D, s, d, w, ps[1..]);
      }
    }
  }

  /** One step of trying the branch points: the first child's success, or the rest. */
  lemma TryBranchesUnfold(S: seq<string>, D: nat, s: string, d: int, w: string, ps: seq<nat>)
    requires |w| == |s| && d >= 0 && |ps| > 0
    requires forall k :: 0 <= k < |ps| ==> ps[k] < |s|
    ensures TryBranches(S, D, s, d, w, ps)
         == if Search(S, D, Child(s, w, ps[0]), d - 1).Some? then Search(S, D, Child(s, w, ps[0]), d - 1)
            else TryBranches(S, D, s, d, w, ps[1..])
  {
  }

  /** If the child at branch point k succeeds, trying the branch points in order succeeds. */
  lemma {:induction false} TryBranchesFinds(S: seq<string>, D: nat, s: string, d: int, w: string, ps: seq<nat>, k: nat)
    requires |w| == |s| && d >= 0
    requires forall j :: 0 <= j < |ps| ==> ps[j] < |s|
    requires k < |ps| && Search(S, D, Child(s, w, ps[k]), d - 1).Some?
    ensures TryBranches(S, D, s, d, w, ps).Some?
    decreases k
  {
    TryBranchesUnfold(S, D, s, d, w, ps);
    if k > 0 && Search(S, D, Child(s, w, ps[0]), d - 1).None? {
      assert ps[1..][k - 1] == ps[k];
      TryBranchesFinds(S, D, s, d, w, ps[1..], k - 1);
    }
  }

  /** Pruning loses nothing: if a solution t is within d substitutions of s, no input is
      beyond D + d from s. */
  lemma PruneIsSafe(S: seq<string>, D: nat, s: string, d: int, t: string)
    requires SameLength(S, s) && |t| == |s| && Solves(S, D, t) && Dist(s, t) <= d
    ensures !TooFar(S, s, D + d)
  {
    forall i | 0 <= i < |S|
      ensures Dist(s, S[i]) <= D + d
    {
      DistTriangle(s, t, S[i]);
    }
  }

  /** Completeness: if some solution t is within d substitutions of the candidate, the search
      finds a solution. */
  lemma {:induction false} SearchComplete(S: seq<string>, D: nat, s: string, d: nat, t: string)
    requires SameLength(S, s) && |t| == |s| && Solves(S, D, t) && Dist(s, t) <= d
    ensures Search(S, D, s, d).Some?
    decreases d, 1
  {
    PruneIsSafe(S, D, s, d, t);
    if Witness(S, D, s).Some? {
      var w := S[Witness(S, D, s).value];
      SearchTakesBranches(S, D, s, d);
      BranchesComplete(S, D, s, d, w, t);
    }
  }

  /** The branching step of completeness: the child that moves s toward t at a branch point
      where t agrees with the witness w succeeds, so trying the branch points succeeds. */
  lemma {:induction false} BranchesComplete(S: seq<string>, D: nat, s: string, d: nat, w: string, t: string)
    requires SameLength(S, s) && |t| == |s| && Solves(S, D, t) && Dist(s, t) <= d
    requires |w| == |s| && Dist(s, w) > D && Dist(t, w) <= D
    ensures TryBranches(S, D, s, d, w, BranchPositions(s, w, D)).Some?
    decreases d, 0
  {
    var ps := BranchPositions(s, w, D);
    SolutionAgreesAtBranch(s, w, t, D);
    var k :| 0 <= k < D + 1 && Dist(Child(s, w, ps[k]), t) == Dist(s, t) - 1;
    SearchComplete(S, D, Child(s, w, ps[k]), d - 1, t);
    TryBranchesFinds(S, D, s, d, w, ps, k);
  }

  /** Shrinking the radius (and with it the initial budget) cannot create a solution: if the
      search from a seed finds one with radius D1, it finds one with every larger radius D2. */
  lemma SearchMonotone(S: seq<string>, D1: nat, D2: nat, seed: string)
    requires SameLength(S, seed) && D1 <= D2
    ensures Search(S, D1, seed, D1).Some? ==> Search(S, D2, seed, D2).Some?
  {
    SearchSound(S, D1, seed, D1);
    if Search(S, D1, seed, D1).Some? {
      var t := Search(S, D1, seed, D1).value;
      DistSymmetric(t, seed);
      SearchComplete(S, D2, seed, D2, t);
    }
  }

  /** An input of another length passes as "within D": the oracle's -1 is never above the
      bound, so the search returns the candidate for an instance it does not solve. */
  lemma MismatchedLengthCountsAsWithin()
    ensures Search(["ab", "abc"], 0, "ab", 0) == Some("ab")
    ensures !Solves(["ab", "abc"], 0, "ab")
  {
    var S: seq<string> := ["ab", "abc"];
    DistZeroIffEqual("ab", "ab");
    assert Ham("ab", S[0]) == 0 && Ham("ab", S[1]) == -1;
    assert !TooFar(S, "ab", 0);
    assert Witness(S, 0, "ab") == None;
  }

  /** The search behind the length check the oracle's -1 stands for: when some input does not
      have the candidate's length, no string of that length is within D of it, and the answer
      is "not found"; otherwise it is the search's answer. */
  method CheckedClosestString(S: seq<string>, D: nat, s: string, d: int) returns (r: Option<string>)
    ensures !SameLength(S, s) ==> r == None
    ensures SameLength(S, s) ==> r == Search(S, D, s, d)
    ensures r.Some? ==> |r.value| == |s| && Solves(S, D, r.value)
  {
    for i := 0 to |S|
      invariant forall j :: 0 <= j < i ==> |S[j]| == |s|
    {
      if |S[i]| != |s| {
        return None;
      }
    }
    r := ClosestString(S, D, s, d);
  }
}
