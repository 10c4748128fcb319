/**
 * The seed selector of the closest-string solver: the input string whose total distance to
 * the other inputs is smallest, the first such on ties. The source scans the totals from an
 * initial bound of 1000; the corrected selector starts from the first total instead.
 */
module SeedSelector {
  import opened Hamming

  /** The source's starting value for the smallest total. */
  const InitialMinDist: int := 1000

  /** Sum of the oracle's answers from S[i] to S[j] over every j < n other than i; the oracle's
      -1 for a string of another length is added like any other answer, as in the source. */
  function PartialTotal(S: seq<string>, i: nat, n: nat): int
    requires i < |S| && n <= |S|
  {
    if n == 0 then 0
    else PartialTotal(S, i, n - 1) + (if n - 1 == i then 0 else Ham(S[i], S[n - 1]))
  }

  /** Total distance from S[i] to all other input strings. */
  function Total(S: seq<string>, i: nat): int
    requires i < |S|
  {
    PartialTotal(S, i, |S|)
  }

  /** m is the first index whose total is the smallest. */
  predicate FirstMinimal(S: seq<string>, m: int)
  {
    && 0 <= m < |S|
    && (forall j :: 0 <= j < |S| ==> Total(S, m) <= Total(S, j))
    && (forall j :: 0 <= j < m ==> Total(S, m) < Total(S, j))
  }

  /** For equal-length inputs every total is between 0 and (|S| - 1) times the length. */
  lemma {:induction false} TotalBounds(S: seq<string>, i: nat, n: nat)
    requires i < |S| && n <= |S|
    requires forall j :: 0 <= j < |S| ==> |S[j]| == |S[i]|
    ensures 0 <= PartialTotal(S, i, n) <= (if i < n then n - 1 else n) * |S[i]|
  {
    if n > 0 {
      TotalBounds(S, i, n - 1);
      var L := |S[i]|;
      var k := if i < n - 1 then n - 2 else n - 1;
      assert 0 <= PartialTotal(S, i, n - 1) <= k * L;
      if n - 1 != i {
        assert 0 <= Ham(S[i], S[n - 1]) <= L;
        assert (k + 1) * L == k * L + L;
      }
    }
  }

  /** The nested loops of the source that fill the vector of totals. */
  method TotalDistances(S: seq<string>) returns (distances: seq<int>)
    ensures |distances| == |S|
    ensures forall i :: 0 <= i < |S| ==> distances[i] == Total(S, i)
  {
    distances := [];
    for i := 0 to |S|
      invariant |distances| == i
      invariant forall m :: 0 <= m < i ==> distances[m] == Total(S, m)
    {
      var totalDistance := 0;
      for j := 0 to |S|
        invariant totalDistance == PartialTotal(S, i, j)
      {
        if j == i {
          continue;
        }
        var h := HammingDistance(S[i], S[j]);
        totalDistance := totalDistance + h;
      }
      distances := distances + [totalDistance];
    }
  }

  /** The source's selector: scan the totals for one strictly below the smallest so far,
      starting from InitialMinDist. It finds the first minimal input only when some total is
      below that bound; otherwise it returns the first input whatever its total. */
  method GetMinDistString(S: seq<string>) returns (r: string)
    requires |S| > 0
    ensures r in S
    ensures (exists i :: 0 <= i < |S| && Total(S, i) < InitialMinDist) ==> exists m :: FirstMinimal(S, m) && r == S[m]
    ensures (forall i :: 0 <= i < |S| ==> Total(S, i) >= InitialMinDist) ==> r == S[0]
  {
    var distances := TotalDistances(S);
    var minIndex := 0;
    var minDist := InitialMinDist;
    for i := 0 to |distances|
      invariant minIndex < |S| && minDist <= InitialMinDist
      invariant forall j :: 0 <= j < i ==> minDist <= distances[j]
      invariant minDist < InitialMinDist ==> minIndex < i && distances[minIndex] == minDist
      invariant forall j :: 0 <= j < minIndex ==> minDist < distances[j]
      invariant minDist == InitialMinDist ==> minIndex == 0
    {
      if distances[i] < minDist {
        minDist := distances[i];
        minIndex := i;
      }
    }
    return S[minIndex];
  }

  /** The corrected selector: the scan starts from the first total, so it always returns the
      first input of minimal total. */
  method GetMinDistStringCorrected(S: seq<string>) returns (r: string)
    requires |S| > 0
    ensures exists m :: FirstMinimal(S, m) && r == S[m]
  {
    var distances := TotalDistances(S);
    var minIndex := 0;
    var minDist := distances[0];
    for i := 1 to |distances|
      invariant minIndex < i && distances[minIndex] == minDist
      invariant forall j :: 0 <= j < i ==> minDist <= distances[j]
      invariant forall j :: 0 <= j < minIndex ==> minDist < distances[j]
    {
      if distances[i] < minDist {
        minDist := distances[i];
        minIndex := i;
      }
    }
    return S[minIndex];
  }

  /** n copies of the character c. */
  function Repeat(c: char, n: nat): (r: string)
    ensures |r| == n && forall i :: 0 <= i < n ==> r[i] == c
  {
    seq(n, _ => c)
  }

  /** Three strings of length 1000 whose totals are all at least InitialMinDist (1500, 1500 and
      1000): the source's selector returns the first of them, although the third has the
      smallest total and is a different string. */
  lemma MinDistCapCounterexample()
    ensures var S := [Repeat('a', 1000), Repeat('c', 1000), Repeat('a', 500) + Repeat('c', 500)];
      && (forall i :: 0 <= i < |S| ==> Total(S, i) >= InitialMinDist)
      && Total(S, 2) < Total(S, 0)
      && forall m :: FirstMinimal(S, m) ==> S[m] != S[0]
  {
    var a5, c5 := Repeat('a', 500), Repeat('c', 500);
    var x, y, z := Repeat('a', 1000), Repeat('c', 1000), a5 + c5;
    var S := [x, y, z];
    assert x == a5 + a5 && y == c5 + c5;
    DistAllDiffer(a5, c5);
    DistAllDiffer(c5, a5);
    DistZeroIffEqual(a5, a5);
    DistZeroIffEqual(c5, c5);
    DistAppend(a5, a5, c5, c5);
    DistAppend(c5, c5, a5, a5);
    DistAppend(a5, a5, a5, c5);
    DistAppend(a5, c5, a5, a5);
    DistAppend(c5, c5, a5, c5);
    DistAppend(a5, c5, c5, c5);
    assert Dist(x, y) == 1000 && Dist(y, x) == 1000;
    assert Dist(x, z) == 500 && Dist(z, x) == 500;
    assert Dist(y, z) == 500 && Dist(z, y) == 500;
    assert PartialTotal(S, 0, 2) == PartialTotal(S, 0, 1) + Ham(S[0], S[1]);
    assert PartialTotal(S, 0, 3) == PartialTotal(S, 0, 2) + Ham(S[0], S[2]);
    assert Total(S, 0) == 1500;
    assert PartialTotal(S, 1, 2) == PartialTotal(S, 1, 1);
    assert PartialTotal(S, 1, 3) == PartialTotal(S, 1, 2) + Ham(S[1], S[2]);
    assert Total(S, 1) == 1500;
    assert PartialTotal(S, 2, 1) == Ham(z, x) && PartialTotal(S, 2, 2) == Ham(z, x) + Ham(z, y);
    assert Total(S, 2) == Ham(z, x) + Ham(z, y) == 1000;
    assert x[999] != z[999] && y[0] != z[0];
  }
}
