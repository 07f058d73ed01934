/** `AccurateRatingCalculator`: the object that turns a contest's standings into
    rating deltas and performances.  Its methods update the contestant records
    and the seed table in place; each is proved against the specification
    functions of `RatingSeed`, `RatingRanks` and `RatingDeltas`. */
module RatingCalculator {
  import opened Wrappers
  import opened Sequences
  import opened Sorting
  import opened Search
  import opened RatingMath
  import opened RatingSeed
  import opened RatingRanks
  import opened RatingDeltas

  /** One entry of the array `calculateRatingChanges` returns. */
  datatype ContestantResult = ContestantResult(
    handle: string,
    rating: Option<int>,
    delta: int,
    performance: Performance,
    rank: nat,
    effectiveRating: int)

  function ToResult(c: Contestant): ContestantResult {
    ContestantResult(c.handle, c.rating, c.delta, c.performance, c.rank, c.effectiveRating)
  }

  /** `this.contestants` after `calculateRatingChanges(input)`. */
  function Outcome(winProb: seq<real>, sqrt: real -> real, input: seq<ContestantInput>): (r: seq<Contestant>)
    requires |winProb| == WinProbLen
    ensures |r| == |input|
  {
    var cs := Map(input, FromInput);
    var seed := SeedTable(winProb, cs);
    var withDeltas := WithDeltas(seed, winProb, sqrt, Ranked(cs));
    WithPerformances(seed, winProb, sqrt, Adjustment(withDeltas), Adjusted(withDeltas))
  }

  /** `this.adjustment` after `calculateRatingChanges(input)`. */
  function OutcomeAdjustment(winProb: seq<real>, sqrt: real -> real, input: seq<ContestantInput>): int
    requires |winProb| == WinProbLen
  {
    var cs := Map(input, FromInput);
    Adjustment(WithDeltas(SeedTable(winProb, cs), winProb, sqrt, Ranked(cs)))
  }

  /** The scan of `reassignRanks` over sorted standings: from the bottom up, a
      new rank (the position plus one) starts whenever the score changes, so
      every contestant ends up with the rank of its tie group's last member. */
  method AssignRanks(s: seq<Contestant>) returns (r: seq<Contestant>)
    requires SortedBy(s, ScoreLe)
    ensures |r| == |s| && forall j :: 0 <= j < |s| ==> r[j] == s[j].(rank := Rank(s, s[j]))
  {
    r := s;
    var lastPoints: Option<int> := None;
    var lastPenalty: Option<int> := None;
    var rank: nat := 0;
    var i := |r| - 1;
    while i >= 0
      invariant -1 <= i < |s| == |r|
      invariant forall j :: 0 <= j <= i ==> r[j] == s[j]
      invariant forall j :: i < j < |s| ==> r[j] == s[j].(rank := Rank(s, s[j]))
      invariant i == |s| - 1 ==> lastPoints == None
      invariant i < |s| - 1 ==>
        lastPoints == Some(s[i + 1].points) && lastPenalty == Some(s[i + 1].penalty) && rank == Rank(s, s[i + 1])
    {
      var c := r[i];
      if Some(c.points) != lastPoints || Some(c.penalty) != lastPenalty {
        lastPoints := Some(c.points);
        lastPenalty := Some(c.penalty);
        rank := i + 1;
        RankAtGroupEnd(s, i);
      }
      r := r[i := c.(rank := rank)];
      i := i - 1;
    }
  }

  /** `for (const c of this.contestants) c.delta += inc`. */
  method AddToDeltas(cs: seq<Contestant>, inc: int) returns (r: seq<Contestant>)
    ensures r == ShiftDeltas(cs, inc)
  {
    r := cs;
    var i := 0;
    while i < |r|
      invariant 0 <= i <= |r| == |cs|
      invariant forall j :: 0 <= j < i ==> r[j] == cs[j].(delta := cs[j].delta + inc)
      invariant forall j :: i <= j < |r| ==> r[j] == cs[j]
    {
      var c := r[i];
      r := r[i := c.(delta := c.delta + inc)];
      i := i + 1;
    }
  }

  class Calculator {
    /** `ELO_WIN_PROB`: entry `i + 6500` is `1 / (1 + 10^(i / 400))`. */
    const winProb: seq<real>
    /** `Math.sqrt`. */
    const sqrt: real -> real
    var seed: array<real>
    var adjustment: int
    var contestants: seq<Contestant>

    ghost predicate Valid()
      reads this
    {
      |winProb| == WinProbLen
    }

    constructor (winProb: seq<real>, sqrt: real -> real)
      requires |winProb| == WinProbLen
      ensures Valid() && this.winProb == winProb && this.sqrt == sqrt
      ensures seed.Length == 0 && adjustment == 0 && contestants == []
    {
      this.winProb := winProb;
      this.sqrt := sqrt;
      seed := new real[0];
      adjustment := 0;
      contestants := [];
    }

    /** The whole calculation; the results are the final records, in the order
        `adjustDeltas` left them. */
    method CalculateRatingChanges(input: seq<ContestantInput>) returns (results: seq<ContestantResult>)
      requires Valid()
      modifies this
      ensures Valid()
      ensures fresh(seed) && seed[..] == SeedTable(winProb, Map(input, FromInput))
      ensures contestants == Outcome(winProb, sqrt, input)
      ensures adjustment == OutcomeAdjustment(winProb, sqrt, input)
      ensures results == Map(contestants, ToResult)
    {
      contestants := Map(input, FromInput);
      CalcSeed();
      ReassignRanks();
      CalcDeltas();
      AdjustDeltas();
      CalcPerformances();
      results := Map(contestants, ToResult);
    }

    /** Counts the contestants per rating bucket and convolves the counts with the
        win probabilities; the seed is that convolution plus one. */
    method CalcSeed()
      requires Valid()
      modifies this
      ensures Valid() && contestants == old(contestants) && adjustment == old(adjustment)
      ensures fresh(seed) && seed[..] == SeedTable(winProb, contestants)
    {
      var counts := new real[RatingRangeLen](_ => 0.0);
      var i := 0;
      while i < |contestants|
        modifies counts
        invariant 0 <= i <= |contestants|
        invariant counts[..] == Histogram(contestants[..i])
      {
        var index := contestants[i].effectiveRating + RatingOffset;
        assert contestants[..i + 1][..i] == contestants[..i];
        if 0 <= index < RatingRangeLen {
          counts[index] := counts[index] + 1.0;
        }
        i := i + 1;
      }
      assert contestants[..i] == contestants;
      var table := Convolve(winProb, counts[..]);
      ghost var conv := table[..];
      var k := 0;
      while k < table.Length
        modifies table
        invariant 0 <= k <= table.Length == SeedLen
        invariant forall m :: 0 <= m < k ==> table[m] == 1.0 + conv[m]
        invariant forall m :: k <= m < table.Length ==> table[m] == conv[m]
      {
        table[k] := table[k] + 1.0;
        k := k + 1;
      }
      seed := table;
      assert seed[..] == SeedTable(winProb, contestants);
    }

    /** `convolve(a, b)`: every product `a[i] * b[j]` added into `result[i + j]`. */
    method Convolve(a: seq<real>, b: seq<real>) returns (result: array<real>)
      requires |a| + |b| >= 1
      ensures fresh(result) && result[..] == Convolution(a, b)
    {
      result := new real[|a| + |b| - 1](_ => 0.0);
      var i := 0;
      while i < |a|
        invariant 0 <= i <= |a|
        invariant forall k :: 0 <= k < result.Length ==> result[k] == ConvPartial(a, b, k, i)
      {
        var j := 0;
        while j < |b|
          invariant 0 <= j <= |b|
          invariant forall k :: 0 <= k < result.Length ==>
            result[k] == ConvPartial(a, b, k, i) + (if i <= k < i + j then a[i] * b[k - i] else 0.0)
        {
          result[i + j] := result[i + j] + a[i] * b[j];
          j := j + 1;
        }
        assert forall k :: 0 <= k < result.Length ==> ConvPartial(a, b, k, i + 1) == ConvPartial(a, b, k, i) + ConvTerm(a, b, k, i);
        i := i + 1;
      }
    }

    /** Sorts by points and penalty, then walks the standings from the bottom,
        starting a new rank whenever the score changes. */
    method ReassignRanks()
      modifies this
      ensures contestants == Ranked(old(contestants))
      ensures seed == old(seed) && adjustment == old(adjustment)
    {
      ghost var original := contestants;
      var standings := Sort(contestants, ScoreLe);
      ScoreLeIsTotalPreorder();
      SortSorted(original, ScoreLe);
      standings := AssignRanks(standings);
      RankedIs(original, standings);
      contestants := standings;
    }

    /** `calcDelta(c, assumed)`. */
    method CalcDelta(c: Contestant, assumed: int) returns (d: int)
      ensures d == Delta(seed[..], winProb, sqrt, c, assumed)
    {
      var s := GetSeed(seed[..], winProb, assumed, c.effectiveRating);
      var midRank := sqrt(RankTimesSeed(c.rank, s));
      var needRating := RankToRating(midRank, c.effectiveRating);
      d := TruncDiv(needRating - assumed, 2);
    }

    /** Every contestant's delta at its own effective rating. */
    method CalcDeltas()
      modifies this
      ensures contestants == WithDeltas(seed[..], winProb, sqrt, old(contestants))
      ensures seed == old(seed) && adjustment == old(adjustment)
    {
      var i := 0;
      while i < |contestants|
        invariant 0 <= i <= |contestants| == |old(contestants)|
        invariant forall j :: 0 <= j < i ==>
          contestants[j] == old(contestants)[j].(delta := Delta(seed[..], winProb, sqrt, old(contestants)[j], old(contestants)[j].effectiveRating))
        invariant forall j :: i <= j < |contestants| ==> contestants[j] == old(contestants)[j]
        invariant seed == old(seed) && adjustment == old(adjustment)
      {
        var c := contestants[i];
        var d := CalcDelta(c, c.effectiveRating);
        contestants := contestants[i := c.(delta := d)];
        i := i + 1;
      }
    }

    /** `rankToRating(rank, selfRating)`: binary search for the last rating in
        2 .. 6000 whose seed still reaches `rank`. */
    method RankToRating(rank: real, selfRating: int) returns (r: int)
      ensures r == NeededRating(seed[..], winProb, rank, selfRating)
    {
      r := SearchLastTrue(2, MaxRatingLimit, SeedAtLeast(seed[..], winProb, selfRating, rank));
    }

    /** Sorts by effective rating, then applies the overall and the top-group
        increments to every delta. */
    method AdjustDeltas()
      modifies this
      ensures contestants == Adjusted(old(contestants))
      ensures adjustment == Adjustment(old(contestants))
      ensures seed == old(seed)
    {
      var standings := Sort(contestants, RatingLe);
      var n := |standings|;
      if n == 0 {
        AdjustedEmpty(contestants);
        contestants, adjustment := standings, 0;
        return;
      }
      var deltaSum := Sum(DeltasOf(standings));
      var inc := TruncDiv(-deltaSum, n) - 1;
      assert inc == FirstInc(standings);
      var shifted := AddToDeltas(standings, inc);

      var zeroSumCount := TopCount(n);
      var topSum := Sum(DeltasOf(shifted[..zeroSumCount]));
      var q := TruncDiv(-topSum, zeroSumCount);
      assert q == TopQuotient(shifted);
      var inc2 := if q < -10 then -10 else if q > 0 then 0 else q;
      assert inc2 == SecondInc(shifted);
      var adjusted := AddToDeltas(shifted, inc2);
      AdjustedSteps(contestants);
      contestants, adjustment := adjusted, inc + inc2;
    }

    /** `Infinity` for rank 1, otherwise the searched performance. */
    method CalcPerformances()
      modifies this
      ensures contestants == WithPerformances(seed[..], winProb, sqrt, adjustment, old(contestants))
      ensures seed == old(seed) && adjustment == old(adjustment)
    {
      var i := 0;
      while i < |contestants|
        invariant 0 <= i <= |contestants| == |old(contestants)|
        invariant forall j :: 0 <= j < i ==>
          contestants[j] == old(contestants)[j].(performance := PerformanceAsWritten(seed[..], winProb, sqrt, adjustment, old(contestants)[j]))
        invariant forall j :: i <= j < |contestants| ==> contestants[j] == old(contestants)[j]
        invariant seed == old(seed) && adjustment == old(adjustment)
      {
        var c := contestants[i];
        var perf: Performance;
        if c.rank == 1 {
          perf := Infinite;
        } else {
          var value := SearchPerformance(c);
          perf := Rated(value);
        }
        contestants := contestants[i := c.(performance := perf)];
        i := i + 1;
      }
    }

    /** The performance search of `calcPerformances` as written: the
        `left = mid` loop over -500 .. 6000, moving up while the adjusted delta
        is not positive. */
    method SearchPerformance(c: Contestant) returns (perf: int)
      ensures perf == LastTrue(MinRatingLimit, MaxRatingLimit, PerformancePred(seed[..], winProb, sqrt, adjustment, c))
    {
      perf := SearchLastTrue(MinRatingLimit, MaxRatingLimit, PerformancePred(seed[..], winProb, sqrt, adjustment, c));
    }
  }

  /** A record with the calculator's own fields cleared: what the input said
      about the contestant. */
  function Base(c: Contestant): Contestant {
    c.(rank := 0, delta := 0, performance := Unset)
  }

  lemma RankedPointwise(cs: seq<Contestant>)
    ensures var s := Sort(cs, ScoreLe);
      forall i :: 0 <= i < |cs| ==> Ranked(cs)[i] == s[i].(rank := Rank(s, s[i]))
  {
  }

  lemma AdjustedPointwise(cs: seq<Contestant>)
    ensures var s := Sort(cs, RatingLe);
      forall i :: 0 <= i < |cs| ==> Adjusted(cs)[i] == s[i].(delta := Adjusted(cs)[i].delta)
  {
    if |cs| >= 1 {
      AdjustedSteps(cs);
    }
  }

  /** The final records are the input's contestants, each exactly once, with
      handle, points, penalty, rating and effective rating as given. */
  lemma OutcomeIsPermutation(winProb: seq<real>, sqrt: real -> real, input: seq<ContestantInput>)
    requires |winProb| == WinProbLen
    ensures multiset(Map(Outcome(winProb, sqrt, input), Base)) == multiset(Map(input, FromInput))
  {
    var cs := Map(input, FromInput);
    var seed := SeedTable(winProb, cs);
    var withDeltas := WithDeltas(seed, winProb, sqrt, Ranked(cs));
    var sorted := Sort(withDeltas, RatingLe);
    OutcomeBase(winProb, sqrt, input);
    MapPerm(sorted, withDeltas, Base);
    WithDeltasBase(seed, winProb, sqrt, cs);
    MapPerm(Sort(cs, ScoreLe), cs, Base);
    FromInputBase(input);
  }

  /** Two sequences that agree up to the calculator's own fields have the same bases. */
  lemma SameBase(a: seq<Contestant>, b: seq<Contestant>)
    requires |a| == |b| && forall i :: 0 <= i < |a| ==> Base(a[i]) == Base(b[i])
    ensures Map(a, Base) == Map(b, Base)
  {
  }

  lemma OutcomeBase(winProb: seq<real>, sqrt: real -> real, input: seq<ContestantInput>)
    requires |winProb| == WinProbLen
    ensures var cs := Map(input, FromInput);
      var withDeltas := WithDeltas(SeedTable(winProb, cs), winProb, sqrt, Ranked(cs));
      Map(Outcome(winProb, sqrt, input), Base) == Map(Sort(withDeltas, RatingLe), Base)
  {
    var cs := Map(input, FromInput);
    var seed := SeedTable(winProb, cs);
    var withDeltas := WithDeltas(seed, winProb, sqrt, Ranked(cs));
    var adjusted := Adjusted(withDeltas);
    var out := WithPerformances(seed, winProb, sqrt, Adjustment(withDeltas), adjusted);
    assert out == Outcome(winProb, sqrt, input);
    AdjustedPointwise(withDeltas);
    SameBase(out, Sort(withDeltas, RatingLe));
  }

  lemma WithDeltasBase(seed: seq<real>, winProb: seq<real>, sqrt: real -> real, cs: seq<Contestant>)
    ensures Map(WithDeltas(seed, winProb, sqrt, Ranked(cs)), Base) == Map(Sort(cs, ScoreLe), Base)
  {
    RankedPointwise(cs);
    SameBase(WithDeltas(seed, winProb, sqrt, Ranked(cs)), Sort(cs, ScoreLe));
  }

  lemma FromInputBase(input: seq<ContestantInput>)
    ensures Map(Map(input, FromInput), Base) == Map(input, FromInput)
  {
  }

  /** The final records are ordered by effective rating, highest first. */
  lemma OutcomeSortedByRating(winProb: seq<real>, sqrt: real -> real, input: seq<ContestantInput>)
    requires |winProb| == WinProbLen
    ensures var out := Outcome(winProb, sqrt, input);
      forall i, j :: 0 <= i < j < |out| ==> out[i].effectiveRating >= out[j].effectiveRating
  {
    var cs := Map(input, FromInput);
    var seed := SeedTable(winProb, cs);
    var withDeltas := WithDeltas(seed, winProb, sqrt, Ranked(cs));
    RatingLeIsTotalPreorder();
    SortSorted(withDeltas, RatingLe);
    AdjustedPointwise(withDeltas);
  }

  /** Every final record carries as its rank the number of contestants in the
      input whose score is at least its own. */
  lemma OutcomeRanks(winProb: seq<real>, sqrt: real -> real, input: seq<ContestantInput>)
    requires |winProb| == WinProbLen
    ensures var out := Outcome(winProb, sqrt, input);
      forall i :: 0 <= i < |out| ==> out[i].rank == Rank(Map(input, FromInput), out[i])
  {
    var cs := Map(input, FromInput);
    var seed := SeedTable(winProb, cs);
    var s := Sort(cs, ScoreLe);
    var ranked := Ranked(cs);
    var withDeltas := WithDeltas(seed, winProb, sqrt, ranked);
    var sorted := Sort(withDeltas, RatingLe);
    RankedPointwise(cs);
    forall j | 0 <= j < |s|
      ensures withDeltas[j].rank == Rank(cs, withDeltas[j])
    {
      RankPerm(s, cs, s[j]);
    }
    forall k | 0 <= k < |sorted|
      ensures sorted[k].rank == Rank(cs, sorted[k])
    {
      assert sorted[k] in multiset(withDeltas);
    }
    AdjustedPointwise(withDeltas);
  }

  /** For a non-empty contest the final deltas sum to a value in (-12n, 0). */
  lemma OutcomeDeltaSum(winProb: seq<real>, sqrt: real -> real, input: seq<ContestantInput>)
    requires |winProb| == WinProbLen && |input| >= 1
    ensures -12 * |input| < Sum(DeltasOf(Outcome(winProb, sqrt, input))) < 0
  {
    var cs := Map(input, FromInput);
    var seed := SeedTable(winProb, cs);
    var withDeltas := WithDeltas(seed, winProb, sqrt, Ranked(cs));
    assert DeltasOf(Outcome(winProb, sqrt, input)) == DeltasOf(Adjusted(withDeltas));
    AdjustedSumBounds(withDeltas);
  }

  /** The performance is `Infinity` exactly for the records of rank 1, that is for
      a contestant no other contestant equals or beats; every other performance
      lies in -500 .. 6000. */
  lemma OutcomePerformance(winProb: seq<real>, sqrt: real -> real, input: seq<ContestantInput>)
    requires |winProb| == WinProbLen
    ensures var out := Outcome(winProb, sqrt, input);
      forall i :: 0 <= i < |out| ==>
        (out[i].performance == Infinite <==> Rank(Map(input, FromInput), out[i]) == 1)
        && (out[i].performance.Rated? ==> MinRatingLimit <= out[i].performance.value <= MaxRatingLimit)
  {
    OutcomeRanks(winProb, sqrt, input);
  }
}
