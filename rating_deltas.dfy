/** `calcDelta`, `rankToRating`, `adjustDeltas` and the performance search of the
    rating calculator, as functions of the seed table. */
module RatingDeltas {
  import opened Sequences
  import opened Sorting
  import opened Search
  import opened RatingMath
  import opened RatingSeed

  /** The condition `rankToRating` searches on: the seed at `x`, without the
      contestant's own rating, reaches `rank`. */
  function SeedAtLeast(seed: seq<real>, winProb: seq<real>, self: int, rank: real): int -> bool {
    x => GetSeed(seed, winProb, x, self) >= rank
  }

  /** `rankToRating(rank, self)`: the binary search over 2 .. 6000. */
  function NeededRating(seed: seq<real>, winProb: seq<real>, rank: real, self: int): (r: int)
    ensures 2 <= r <= MaxRatingLimit
  {
    LastTrue(2, MaxRatingLimit, SeedAtLeast(seed, winProb, self, rank))
  }

  /** With a well-shaped Elo table and a contestant whose rating lies inside the
      histogram, `rankToRating` returns the largest rating in 2 .. 6000 whose
      expected rank among the other contestants is still at least `rank`, and 2
      when there is none. */
  lemma NeededRatingIsLargest(winProb: seq<real>, cs: seq<Contestant>, i: int, rank: real)
    requires WinProbShape(winProb) && 0 <= i < |cs|
    requires MinRatingLimit <= cs[i].effectiveRating < MaxRatingLimit
    ensures var seed := SeedTable(winProb, cs);
      var r := NeededRating(seed, winProb, rank, cs[i].effectiveRating);
      forall x :: 2 <= x <= MaxRatingLimit ==>
        (GetSeed(seed, winProb, x, cs[i].effectiveRating) >= rank
         <==> GetSeed(seed, winProb, 2, cs[i].effectiveRating) >= rank && x <= r)
  {
    SeedAtLeastDownwardClosed(winProb, cs, i, rank);
    NeededRatingIsLargestFor(SeedTable(winProb, cs), winProb, rank, cs[i].effectiveRating);
  }

  lemma NeededRatingIsLargestFor(seed: seq<real>, winProb: seq<real>, rank: real, self: int)
    requires DownwardClosed(2, MaxRatingLimit, SeedAtLeast(seed, winProb, self, rank))
    ensures var r := NeededRating(seed, winProb, rank, self);
      forall x :: 2 <= x <= MaxRatingLimit ==>
        (GetSeed(seed, winProb, x, self) >= rank <==> GetSeed(seed, winProb, 2, self) >= rank && x <= r)
  {
    var p := SeedAtLeast(seed, winProb, self, rank);
    LastTrueDownwardClosed(2, MaxRatingLimit, p);
    forall x | 2 <= x <= MaxRatingLimit
      ensures GetSeed(seed, winProb, x, self) >= rank
          <==> GetSeed(seed, winProb, 2, self) >= rank && x <= NeededRating(seed, winProb, rank, self)
    {
      assert p(x) == (GetSeed(seed, winProb, x, self) >= rank);
      assert p(2) == (GetSeed(seed, winProb, 2, self) >= rank);
    }
  }

  lemma SeedAtLeastDownwardClosed(winProb: seq<real>, cs: seq<Contestant>, i: int, rank: real)
    requires WinProbShape(winProb) && 0 <= i < |cs|
    requires MinRatingLimit <= cs[i].effectiveRating < MaxRatingLimit
    ensures DownwardClosed(2, MaxRatingLimit, SeedAtLeast(SeedTable(winProb, cs), winProb, cs[i].effectiveRating, rank))
  {
    var seed := SeedTable(winProb, cs);
    var self := cs[i].effectiveRating;
    forall x, y | 2 <= x <= y <= MaxRatingLimit && GetSeed(seed, winProb, y, self) >= rank
      ensures GetSeed(seed, winProb, x, self) >= rank
    {
      GetSeedExcludesSelf(winProb, cs, i, x);
      GetSeedExcludesSelf(winProb, cs, i, y);
      WinSumAntitone(winProb, cs[..i] + cs[i + 1..], x, y);
    }
  }

  /** `contestant.rank * seed`, the argument of the square root. */
  function RankTimesSeed(rank: nat, seed: real): real {
    (rank as real) * seed
  }

  /** `calcDelta(c, assumed)`: half the way, rounded toward zero, from the assumed
      rating to the rating needed for the geometric mean of the actual and the
      expected rank.  `sqrt` stands for `Math.sqrt`. */
  function Delta(seed: seq<real>, winProb: seq<real>, sqrt: real -> real, c: Contestant, assumed: int): int {
    var midRank := sqrt(RankTimesSeed(c.rank, GetSeed(seed, winProb, assumed, c.effectiveRating)));
    TruncDiv(NeededRating(seed, winProb, midRank, c.effectiveRating) - assumed, 2)
  }

  /** The delta is half the way from the assumed rating to the needed rating,
      rounded toward zero: positive exactly when the needed rating is at least
      two above, negative exactly when it is at least two below. */
  lemma DeltaIsHalfWay(seed: seq<real>, winProb: seq<real>, sqrt: real -> real, c: Contestant, assumed: int)
    ensures var need := NeededRating(seed, winProb, sqrt(RankTimesSeed(c.rank, GetSeed(seed, winProb, assumed, c.effectiveRating))), c.effectiveRating);
      var d := Delta(seed, winProb, sqrt, c, assumed);
      && (d > 0 <==> need >= assumed + 2)
      && (d < 0 <==> need <= assumed - 2)
      && -1 <= need - (assumed + 2 * d) <= 1
  {
  }

  /** The contestants after `calcDeltas`: each delta computed at the contestant's
      own effective rating, nothing else changed. */
  function WithDeltas(seed: seq<real>, winProb: seq<real>, sqrt: real -> real, cs: seq<Contestant>): (r: seq<Contestant>)
    ensures |r| == |cs|
  {
    seq(|cs|, i requires 0 <= i < |cs| => cs[i].(delta := Delta(seed, winProb, sqrt, cs[i], cs[i].effectiveRating)))
  }

  /** The comparator of `adjustDeltas`: higher effective rating first. */
  function RatingLe(a: Contestant, b: Contestant): bool {
    a.effectiveRating >= b.effectiveRating
  }

  lemma RatingLeIsTotalPreorder()
    ensures TotalPreorder(RatingLe)
  {
  }

  function DeltasOf(cs: seq<Contestant>): seq<int> {
    Map(cs, (c: Contestant) => c.delta)
  }

  /** `for (const c of contestants) c.delta += k`. */
  function ShiftDeltas(cs: seq<Contestant>, k: int): (r: seq<Contestant>)
    ensures |r| == |cs|
  {
    seq(|cs|, i requires 0 <= i < |cs| => cs[i].(delta := cs[i].delta + k))
  }

  /** Shifting every delta by `k` shifts their sum by `|cs| * k`. */
  lemma SumShiftDeltas(cs: seq<Contestant>, k: int)
    ensures Sum(DeltasOf(ShiftDeltas(cs, k))) == Sum(DeltasOf(cs)) + |cs| * k
  {
    assert DeltasOf(ShiftDeltas(cs, k)) == AddToAll(DeltasOf(cs), k);
    SumAddToAll(DeltasOf(cs), k);
  }

  /** The first increment: `Math.trunc(-sum / n) - 1`. */
  function FirstInc(cs: seq<Contestant>): int
    requires |cs| >= 1
  {
    TruncDiv(-Sum(DeltasOf(cs)), |cs|) - 1
  }

  /** The quotient of the second step before clamping: `Math.trunc(-topSum / k)`
      over the top `min(4 * round(sqrt(n)), n)` contestants. */
  function TopQuotient(cs: seq<Contestant>): int
    requires |cs| >= 1
  {
    var k := TopCount(|cs|);
    TruncDiv(-Sum(DeltasOf(cs[..k])), k)
  }

  /** The second increment: the top quotient clamped to -10 .. 0. */
  function SecondInc(cs: seq<Contestant>): (inc: int)
    requires |cs| >= 1
    ensures -10 <= inc <= 0
    ensures -10 <= TopQuotient(cs) <= 0 ==> inc == TopQuotient(cs)
    ensures TopQuotient(cs) > 0 ==> inc == 0
    ensures TopQuotient(cs) < -10 ==> inc == -10
  {
    var q := TopQuotient(cs);
    if q < -10 then -10 else if q > 0 then 0 else q
  }

  /** The contestants after `adjustDeltas`: sorted by effective rating, then both
      increments added to every delta. */
  function Adjusted(cs: seq<Contestant>): (r: seq<Contestant>)
    ensures |r| == |cs|
  {
    var s := Sort(cs, RatingLe);
    if s == [] then s
    else
      var a := ShiftDeltas(s, FirstInc(s));
      ShiftDeltas(a, SecondInc(a))
  }

  /** `this.adjustment` after `adjustDeltas`: the sum of the two increments.  An
      empty contest, for which the source computes `NaN`, is given 0. */
  function Adjustment(cs: seq<Contestant>): int {
    var s := Sort(cs, RatingLe);
    if s == [] then 0
    else
      var a := ShiftDeltas(s, FirstInc(s));
      FirstInc(s) + SecondInc(a)
  }

  lemma AdjustedEmpty(cs: seq<Contestant>)
    requires Sort(cs, RatingLe) == []
    ensures Adjusted(cs) == [] && Adjustment(cs) == 0
  {
  }

  /** `Adjusted` and `Adjustment` spelled out step by step. */
  lemma AdjustedSteps(cs: seq<Contestant>)
    requires |cs| >= 1
    ensures var s := Sort(cs, RatingLe);
      var a := ShiftDeltas(s, FirstInc(s));
      Adjusted(cs) == ShiftDeltas(a, SecondInc(a)) && Adjustment(cs) == FirstInc(s) + SecondInc(a)
  {
  }

  /** Both passes add the same amount to every delta: each final delta is the
      contestant's delta in rating order plus the stored adjustment, so the
      differences between deltas are kept. */
  lemma AdjustedShiftsAll(cs: seq<Contestant>)
    ensures var s := Sort(cs, RatingLe);
      forall i :: 0 <= i < |s| ==> Adjusted(cs)[i] == s[i].(delta := s[i].delta + Adjustment(cs))
  {
    var s := Sort(cs, RatingLe);
    if s != [] {
      var a := ShiftDeltas(s, FirstInc(s));
      AdjustedSteps(cs);
      ShiftDeltasTwice(s, FirstInc(s), SecondInc(a));
    }
  }

  /** Two shifts are one shift by their sum. */
  lemma ShiftDeltasTwice(s: seq<Contestant>, j: int, k: int)
    ensures ShiftDeltas(ShiftDeltas(s, j), k) == ShiftDeltas(s, j + k)
  {
    var lhs := ShiftDeltas(ShiftDeltas(s, j), k);
    forall i | 0 <= i < |s|
      ensures lhs[i] == ShiftDeltas(s, j + k)[i]
    {
      assert ShiftDeltas(s, j)[i] == s[i].(delta := s[i].delta + j);
    }
  }

  /** After the first increment the deltas sum to a value in (-2n, 0): the pass
      makes the total slightly negative. */
  lemma FirstIncBalances(cs: seq<Contestant>)
    requires |cs| >= 1
    ensures var total := Sum(DeltasOf(ShiftDeltas(cs, FirstInc(cs))));
      -2 * |cs| < total < 0
  {
    var n := |cs|;
    var q := TruncDiv(-Sum(DeltasOf(cs)), n);
    SumShiftDeltas(cs, q - 1);
    assert n * (q - 1) == n * q - n;
  }

  /** When the top quotient is not clamped, the second increment brings the sum of
      the top group's deltas into (-k, k). */
  lemma SecondIncBalancesTop(cs: seq<Contestant>)
    requires |cs| >= 1 && -10 <= TopQuotient(cs) <= 0
    ensures var k: int := TopCount(|cs|);
      -k < Sum(DeltasOf(ShiftDeltas(cs, SecondInc(cs))[..k])) < k
  {
    var k := TopCount(|cs|);
    var inc := SecondInc(cs);
    assert ShiftDeltas(cs, inc)[..k] == ShiftDeltas(cs[..k], inc);
    SumShiftDeltas(cs[..k], inc);
  }

  /** After both increments the deltas sum to a value in (-12n, 0). */
  lemma AdjustedSumBounds(cs: seq<Contestant>)
    requires |cs| >= 1
    ensures -12 * |cs| < Sum(DeltasOf(Adjusted(cs))) < 0
  {
    var s := Sort(cs, RatingLe);
    var a := ShiftDeltas(s, FirstInc(s));
    var inc := SecondInc(a);
    FirstIncBalances(s);
    SumShiftDeltas(a, inc);
    assert Adjusted(cs) == ShiftDeltas(a, inc);
    ScaledIncBounds(|cs|, inc);
  }

  lemma ScaledIncBounds(n: nat, inc: int)
    requires -10 <= inc <= 0
    ensures -10 * n <= n * inc <= 0
  {
  }

  /** The condition the performance search tests: the delta at rating `x`, with
      the adjustment added, is not positive. */
  function PerformancePred(seed: seq<real>, winProb: seq<real>, sqrt: real -> real, adjustment: int, c: Contestant): int -> bool {
    x => Delta(seed, winProb, sqrt, c, x) + adjustment <= 0
  }

  /** The performance the calculator reports: `Infinity` for rank 1, otherwise
      the `left = mid` search over -500 .. 6000, a search that suits a
      downward-closed condition. */
  function PerformanceAsWritten(seed: seq<real>, winProb: seq<real>, sqrt: real -> real, adjustment: int, c: Contestant): (p: Performance)
    ensures c.rank == 1 <==> p == Infinite
    ensures p.Rated? ==> MinRatingLimit <= p.value <= MaxRatingLimit
  {
    if c.rank == 1 then Infinite
    else Rated(LastTrue(MinRatingLimit, MaxRatingLimit, PerformancePred(seed, winProb, sqrt, adjustment, c)))
  }

  /** The condition is upward-closed whenever the delta does not grow with the
      assumed rating; the search as written then only ever answers -500 or 6000. */
  lemma PerformanceAsWrittenAtEnds(seed: seq<real>, winProb: seq<real>, sqrt: real -> real, adjustment: int, c: Contestant)
    requires c.rank != 1
    requires UpwardClosed(MinRatingLimit, MaxRatingLimit, PerformancePred(seed, winProb, sqrt, adjustment, c))
    ensures PerformanceAsWritten(seed, winProb, sqrt, adjustment, c) in {Rated(MinRatingLimit), Rated(MaxRatingLimit)}
  {
    LastTrueUpwardClosed(MinRatingLimit, MaxRatingLimit, PerformancePred(seed, winProb, sqrt, adjustment, c));
  }

  /** The performance the search is meant to find, with the search run in the
      direction its condition calls for: `Infinity` for rank 1, otherwise the
      smallest rating in -500 .. 6000 at which the adjusted delta is not
      positive.  The calculator itself reports `PerformanceAsWritten`. */
  function PerformanceOf(seed: seq<real>, winProb: seq<real>, sqrt: real -> real, adjustment: int, c: Contestant): (p: Performance)
    ensures c.rank == 1 <==> p == Infinite
    ensures p.Rated? ==> MinRatingLimit <= p.value <= MaxRatingLimit
  {
    if c.rank == 1 then Infinite
    else Rated(FirstTrue(MinRatingLimit, MaxRatingLimit, PerformancePred(seed, winProb, sqrt, adjustment, c)))
  }

  /** When the adjusted delta does not grow with the assumed rating, the reported
      performance of the corrected search is the threshold: the delta is not positive at and above it and
      positive below it (6000 when it stays positive throughout). */
  lemma PerformanceIsThreshold(seed: seq<real>, winProb: seq<real>, sqrt: real -> real, adjustment: int, c: Contestant)
    requires c.rank != 1
    requires UpwardClosed(MinRatingLimit, MaxRatingLimit, PerformancePred(seed, winProb, sqrt, adjustment, c))
    ensures var perf := PerformanceOf(seed, winProb, sqrt, adjustment, c).value;
      var p := PerformancePred(seed, winProb, sqrt, adjustment, c);
      forall x :: MinRatingLimit <= x <= MaxRatingLimit ==> (p(x) <==> p(MaxRatingLimit) && perf <= x)
  {
    FirstTrueUpwardClosed(MinRatingLimit, MaxRatingLimit, PerformancePred(seed, winProb, sqrt, adjustment, c));
  }

  /** The contestants after `calcPerformances`, nothing but the performance changed. */
  function WithPerformances(seed: seq<real>, winProb: seq<real>, sqrt: real -> real, adjustment: int, cs: seq<Contestant>): (r: seq<Contestant>)
    ensures |r| == |cs|
  {
    seq(|cs|, i requires 0 <= i < |cs| => cs[i].(performance := PerformanceAsWritten(seed, winProb, sqrt, adjustment, cs[i])))
  }
}
