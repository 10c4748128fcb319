# Closest String solver — a verified model

The solver takes a set `S` of input strings of one length and a radius `D`. It looks for a
string within Hamming distance `D` of every input. It uses the bounded search tree of Gramm,
Niedermeier and Rossmanith, which has three parts:

- the distance oracle `hammingDistance`, which answers `-1` for strings of different lengths;
- the recursive search `closestString(s, d)`, which works from a candidate `s` with an edit
  budget `d`:
  - it gives up when the budget is negative;
  - it prunes when some input is farther than `D + d` from the candidate;
  - it returns the candidate when every input is within `D`;
  - otherwise it takes the last input farther than `D` as a witness, and for each of the first
    `D + 1` positions where candidate and witness differ it searches, with budget `d - 1`, the
    candidate with that one character replaced by the witness's;
- the seed selector `getMinDistString`, which returns the first input (in input order) of
  smallest total distance to the others, provided some total is below its initial bound of
  1000; when none is, it returns the first input (see Findings).

The Dafny project has four modules:

- `Wrappers` (`wrappers.dfy`) holds `Option`, which replaces the source's `"not found"`
  sentinel string.
- `Hamming` (`hamming.dfy`) holds:
  - the distance `Dist`, defined on prefixes in the order the source's loop visits them;
  - the oracle `Ham`, including its `-1` answer;
  - the loop `HammingDistance`, proved against them;
  - the ascending list of differing positions, `Mismatches`;
  - the facts the search needs: the count of differing positions, symmetry, zero exactly on
    equal strings, the triangle inequality, the effect of a one-character update, and a lower
    bound from any ascending list of differing positions.
- `BoundedSearch` (`search.dfy`) holds:
  - `Search`/`TryBranches`, the total function of what `closestString` returns;
  - `ClosestString`, the imperative search, whose three loops are the methods `ScanInputs`,
    `ListMismatches` and `TryEachBranch`, each proved against that function;
  - the properties of the search: its short-circuits, the shape of the branch list and the
    children, soundness, and completeness (if a solution lies within `d` substitutions of the
    candidate, one is found).
- `SeedSelector` (`seed.dfy`) holds the nested loops that total the distances and the selector
  loop with its initial bound of 1000. It also holds a corrected selector and an input on which
  the two differ.

The globals `S` and `D` are parameters. `D` is a `nat`, because the driver only uses positive
radii. The candidate and budget are parameters as in the source.

## Model

| member | source | states |
|---|---|---|
| Hamming.HammingDistance | solver.cpp:15-26 | answers -1 exactly when the lengths differ; otherwise the number of differing positions `Dist` |
| Hamming.Dist | solver.cpp:19-25 | the count of differing positions never exceeds the length |
| Hamming.DistCountsDiffPositions | solver.cpp:19-25 | the distance is the number of indices `i` with `s1[i] != s2[i]` |
| Hamming.DistSymmetric | solver.cpp:19-25 | the distance does not depend on the order of its arguments |
| Hamming.DistZeroIffEqual | solver.cpp:19-25 | the distance is 0 if and only if the two strings are equal |
| Hamming.DistTriangle | solver.cpp:19-25 | the distance obeys the triangle inequality, which makes pruning at `D + d` safe |
| Hamming.DistUpdate | solver.cpp:58-59 | overwriting one position changes the distance to a third string by the change at that position only |
| Hamming.DistAtLeast | solver.cpp:49-56 | an ascending list of differing positions is no longer than the distance |
| Hamming.DistAppend | solver.cpp:19-25 | the distance of concatenations is the sum of the distances of the parts |
| Hamming.DistAllDiffer | solver.cpp:19-25 | strings that differ everywhere are at distance equal to their length |
| Hamming.Mismatches | solver.cpp:49-54 | the mismatch list has one entry per differing position, each within the string |
| Hamming.MismatchesAscending | solver.cpp:49-54 | the mismatch list is strictly ascending, and the strings differ at each entry |
| Hamming.MismatchesComplete | solver.cpp:49-54 | every position where the strings differ is in the mismatch list |
| BoundedSearch.LastFar | solver.cpp:35-44 | the witness is absent exactly when every input is within `D`; otherwise it is an input of the candidate's length farther than `D`, and every later input is within `D` |
| BoundedSearch.BranchPositions | solver.cpp:55-56 | the branch list holds exactly `D + 1` positions, all within the candidate |
| BoundedSearch.BranchPositionsAreFirst | solver.cpp:49-56 | the branch positions are ascending, candidate and witness differ at each, and they are the first `D + 1` mismatches |
| BoundedSearch.Child | solver.cpp:58-59 | the child candidate keeps the candidate's length |
| BoundedSearch.ChildCloserToWitness | solver.cpp:57-59 | the child equals the candidate except at the branch position, where it takes the witness's character; it is one closer to the witness and one edit from the candidate |
| BoundedSearch.ClosestString | solver.cpp:28-66 | returns what `Search` defines, and terminates since every recursive call has budget `d - 1`; on equal-length inputs a result solves the instance and has the candidate's length |
| BoundedSearch.ScanInputs | solver.cpp:33-44 | reports pruning exactly when some input is beyond `D + d`; otherwise reports solved exactly when there is no witness, and else returns the last input farther than `D` |
| BoundedSearch.ListMismatches | solver.cpp:49-54 | builds the ascending mismatch list `Mismatches` of candidate and witness |
| BoundedSearch.TryEachBranch | solver.cpp:57-65 | tries the branch positions in order and returns the first child's success, or none |
| BoundedSearch.SearchShortCircuits | solver.cpp:29-47 | not found on a negative budget, not found when some input is beyond `D + d`, and the candidate itself when every input is within `D` |
| BoundedSearch.TryBranchesFinds | solver.cpp:57-64 | if any child succeeds, trying the branch positions in order succeeds |
| BoundedSearch.SearchSound | solver.cpp:45-46 | on equal-length inputs, a found string solves the instance, has the candidate's length and is within `d` substitutions of the candidate |
| BoundedSearch.TryBranchesSound | solver.cpp:60-62 | a success returned from a branch solves the instance and is within `d` substitutions of the candidate |
| BoundedSearch.PruneIsSafe | solver.cpp:37-38 | if a solution lies within `d` substitutions of the candidate, the pruning test does not fire |
| BoundedSearch.SolutionAgreesAtBranch | solver.cpp:49-60 | a solution agrees with the witness at one of the `D + 1` branch positions, and the child there is one step closer to that solution |
| BoundedSearch.SearchComplete | solver.cpp:28-66 | if a solution lies within `d` substitutions of the candidate, the search finds a solution |
| BoundedSearch.BranchesComplete | solver.cpp:57-64 | if a solution lies within `d` substitutions of the candidate, trying the branch positions finds one |
| BoundedSearch.SearchMonotone | solver.cpp:28-66 | with the budget equal to the radius, success for radius `D1` implies success for every larger radius |
| BoundedSearch.MismatchedLengthCountsAsWithin | solver.cpp:16-18 | for inputs `["ab", "abc"]`, `D = 0`, candidate `"ab"`, budget 0, the search returns `"ab"`, which does not solve the instance |
| BoundedSearch.CheckedClosestString | solver.cpp:28-47 | not found when some input has another length; otherwise the search's answer; any result solves the instance |
| SeedSelector.TotalBounds | solver.cpp:104-108 | on equal-length inputs each total lies between 0 and (number of other inputs) × length |
| SeedSelector.TotalDistances | solver.cpp:102-110 | the vector holds, for each input, the sum of the oracle's distances to every other input |
| SeedSelector.GetMinDistString | solver.cpp:101-121 | returns an input; when some total is below 1000 it is the first input of minimal total; when none is, it is the first input |
| SeedSelector.GetMinDistStringCorrected | solver.cpp:111-120 | returns the first input of minimal total, whatever the totals |
| SeedSelector.MinDistCapCounterexample | solver.cpp:113-119 | for three inputs of length 1000 with totals 1500, 1500 and 1000, the first input is returned, although the third has a smaller total and is a different string |

## Left out

- `randomizeInput` (instance generator) is not modelled. It draws from `rand()` and rebuilds the global input set, so it is harness code, not part of the algorithm.
- `main` is not modelled: the file and console output, the wall-clock timing, the parameter sweep and the floating-point average of timings are I/O and measurement.
- The alphabet vector is not modelled. Only the generator uses it, and the search works over any characters.
- The `"not found"` sentinel is modelled as `Option.None`. In the source an input equal to the text `not found` would be indistinguishable from failure; the model does not capture that collision.
- Integer widths are not modelled: distances and totals are unbounded integers. The source's `int` totals would overflow only for inputs far beyond the driver's sizes.
- `resize(D + 1)` can also grow a vector, padding it with position 0. The model only truncates, because the witness is farther than `D` and so at least `D + 1` mismatches exist. The padding case cannot occur.
- Negative radii `D` are not modelled: `D` is a `nat`.
- SeedSelector.GetMinDistString: requires a non-empty input set, because on an empty set the source reads the first element of an empty vector (undefined behaviour), so no behaviour is modelled there.
- The three loops of `closestString` are separate methods called from `ClosestString`, but the statements they run are those of the source.
- BoundedSearch.ClosestString: its soundness ensures requires every input to have the candidate's length. Without that, the source's oracle answers `-1` for the odd one out, which counts as within `D`; see Findings.

## Findings

| source | as written | input that shows it | evidently intended | confidence | as-written member | corrected member |
|---|---|---|---|---|---|---|
| solver.cpp:113-119 | the minimum scan starts from a fixed bound of 1000, so when every total is at least 1000 the first input is returned whatever its total | three inputs of length 1000: all `a`, all `c`, and 500 `a` then 500 `c`; totals 1500, 1500, 1000; the first input is returned instead of the third | return the first input of minimal total, as the comment at line 111 says; the driver's sweep never reaches it (at most 25 strings of length 50, each within 20 of one string, so every total is at most 24 × 40 = 960), but any input set with all totals at least 1000 does | high, not executed | SeedSelector.MinDistCapCounterexample | SeedSelector.GetMinDistStringCorrected |
| solver.cpp:16-18, 36-40 | the oracle's `-1` for an input of another length is never above `D` or `D + d`, so such an input counts as within distance | inputs `["ab", "abc"]`, `D = 0`, candidate `"ab"`, budget 0: the search returns `"ab"` | report not found, since no string is within `D` of inputs of two lengths | medium, not executed | BoundedSearch.MismatchedLengthCountsAsWithin | BoundedSearch.CheckedClosestString |
