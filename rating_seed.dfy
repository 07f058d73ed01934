/** The contestant records of the rating calculator and its expected-rank table
    ("seed"): a histogram of effective ratings convolved with the Elo win
    probabilities, plus one. */
module RatingSeed {
  import opened Wrappers
  import opened Sequences

  const DefaultRating: int := 1400
  const MaxRatingLimit: int := 6000
  const MinRatingLimit: int := -500
  const RatingRangeLen: int := MaxRatingLimit - MinRatingLimit
  const EloOffset: int := RatingRangeLen
  const RatingOffset: int := -MinRatingLimit
  /** One win probability per rating difference -6500 .. 6500. */
  const WinProbLen: int := 2 * RatingRangeLen + 1
  /** Length of the convolution of the win probabilities with the histogram. */
  const SeedLen: int := WinProbLen + RatingRangeLen - 1

  /** A row of the standings as the caller hands it over; `rating` is absent for
      unrated or unknown participants. */
  datatype ContestantInput = ContestantInput(handle: string, points: int, penalty: int, rating: Option<int>)

  /** `null` before the performance step, `Infinity` for the winner. */
  datatype Performance = Unset | Infinite | Rated(value: int)

  /** The calculator's working record.  `rank` 0 and `delta` 0 stand for the
      `null` they hold before their step runs. */
  datatype Contestant = Contestant(
    handle: string,
    points: int,
    penalty: int,
    rating: Option<int>,
    effectiveRating: int,
    rank: nat,
    delta: int,
    performance: Performance)

  /** `c.rating || 1400`: a missing rating and a rating of 0 both fall back to the default. */
  function EffectiveRating(rating: Option<int>): (r: int)
    ensures rating.Some? && rating.value != 0 ==> r == rating.value
    ensures rating == None || rating == Some(0) ==> r == DefaultRating
  {
    if rating.Some? && rating.value != 0 then rating.value else DefaultRating
  }

  function FromInput(c: ContestantInput): (r: Contestant)
    ensures r.handle == c.handle && r.points == c.points && r.penalty == c.penalty && r.rating == c.rating
    ensures r.effectiveRating == EffectiveRating(c.rating)
    ensures r.rank == 0 && r.delta == 0 && r.performance == Unset
  {
    Contestant(c.handle, c.points, c.penalty, c.rating, EffectiveRating(c.rating), 0, 0, Unset)
  }

  /** The histogram bucket of a contestant; only buckets 0 .. 6499 are counted. */
  function Bucket(c: Contestant): int {
    c.effectiveRating + RatingOffset
  }

  function Zeros(n: nat): (z: seq<real>)
    ensures |z| == n && forall j :: 0 <= j < n ==> z[j] == 0.0
  {
    seq(n, _ => 0.0)
  }

  /** The `counts` array of `calcSeed` after the first `|cs|` contestants:
      each bucket holds the number of contestants whose effective rating falls in it. */
  function Histogram(cs: seq<Contestant>): (h: seq<real>)
    ensures |h| == RatingRangeLen
    ensures forall j :: 0 <= j < RatingRangeLen ==> h[j] == CountIn(cs, j) as real
    decreases |cs|
  {
    if cs == [] then Zeros(RatingRangeLen)
    else
      var h := Histogram(cs[..|cs| - 1]);
      var j := Bucket(cs[|cs| - 1]);
      assert cs == cs[..|cs| - 1] + [cs[|cs| - 1]];
      CountInAppend(cs[..|cs| - 1], cs[|cs| - 1]);
      if 0 <= j < RatingRangeLen then h[j := h[j] + 1.0] else h
  }

  /** A contestant whose effective rating falls in the histogram's range. */
  function InHistogram(c: Contestant): bool {
    0 <= Bucket(c) < RatingRangeLen
  }

  /** The total of a table of reals. */
  function RealSum(s: seq<real>): real {
    if s == [] then 0.0 else s[0] + RealSum(s[1..])
  }

  lemma {:induction false} RealSumZeros(n: nat)
    ensures RealSum(Zeros(n)) == 0.0
  {
    if n > 0 {
      assert Zeros(n)[1..] == Zeros(n - 1);
      RealSumZeros(n - 1);
    }
  }

  lemma {:induction false} RealSumIncrementAt(s: seq<real>, i: int)
    requires 0 <= i < |s|
    ensures RealSum(s[i := s[i] + 1.0]) == RealSum(s) + 1.0
  {
    if i > 0 {
      assert s[i := s[i] + 1.0][1..] == s[1..][i - 1 := s[1..][i - 1] + 1.0];
      RealSumIncrementAt(s[1..], i - 1);
    } else {
      assert s[i := s[i] + 1.0][1..] == s[1..];
    }
  }

  /** The histogram counts every contestant rated inside -500 .. 5999 once and
      nobody else, so its total is at most the number of contestants. */
  lemma {:induction false} HistogramTotal(cs: seq<Contestant>)
    ensures RealSum(Histogram(cs)) == CountWhere(cs, InHistogram) as real
    ensures RealSum(Histogram(cs)) <= |cs| as real
    decreases |cs|
  {
    if cs == [] {
      RealSumZeros(RatingRangeLen);
    } else {
      var init := cs[..|cs| - 1];
      var c := cs[|cs| - 1];
      HistogramTotal(init);
      assert cs == init + [c];
      CountWhereAppend(init, [c], InHistogram);
      if InHistogram(c) {
        RealSumIncrementAt(Histogram(init), Bucket(c));
      }
    }
  }

  /** Number of contestants in bucket `j`. */
  function CountIn(cs: seq<Contestant>, j: int): nat
    decreases |cs|
  {
    if cs == [] then 0
    else CountIn(cs[..|cs| - 1], j) + (if Bucket(cs[|cs| - 1]) == j then 1 else 0)
  }

  lemma CountInAppend(cs: seq<Contestant>, c: Contestant)
    ensures forall j :: CountIn(cs + [c], j) == CountIn(cs, j) + (if Bucket(c) == j then 1 else 0)
  {
    assert (cs + [c])[..|cs + [c]| - 1] == cs;
  }

  /** `sum over i < upTo` of `a[i] * b[k - i]`, the terms that exist. */
  function ConvPartial(a: seq<real>, b: seq<real>, k: int, upTo: int): real
    requires 0 <= upTo <= |a|
  {
    if upTo == 0 then 0.0
    else ConvPartial(a, b, k, upTo - 1) + ConvTerm(a, b, k, upTo - 1)
  }

  function ConvTerm(a: seq<real>, b: seq<real>, k: int, i: int): real
    requires 0 <= i < |a|
  {
    if 0 <= k - i < |b| then a[i] * b[k - i] else 0.0
  }

  /** The result of `convolve(a, b)`. */
  function Convolution(a: seq<real>, b: seq<real>): (r: seq<real>)
    requires |a| + |b| >= 1
    ensures |r| == |a| + |b| - 1
  {
    seq(|a| + |b| - 1, k => ConvPartial(a, b, k, |a|))
  }

  /** `this.seed` after `calcSeed`: the convolution plus one at every index. */
  function SeedTable(winProb: seq<real>, cs: seq<Contestant>): (s: seq<real>)
    requires |winProb| == WinProbLen
    ensures |s| == SeedLen
  {
    var conv := Convolution(winProb, Histogram(cs));
    seq(SeedLen, k requires 0 <= k < SeedLen => 1.0 + conv[k])
  }

  /** `getSeed(rating, exclude)`: the seed at `rating`, minus the win probability
      of a contestant rated `exclude`; 1 outside the table. */
  function GetSeed(seed: seq<real>, winProb: seq<real>, rating: int, exclude: int): (r: real)
    ensures !(0 <= rating + EloOffset + RatingOffset < |seed|) ==> r == 1.0
    ensures 0 <= rating + EloOffset + RatingOffset < |seed| && !(0 <= rating - exclude + EloOffset < |winProb|) ==>
      r == seed[rating + EloOffset + RatingOffset]
    ensures 0 <= rating + EloOffset + RatingOffset < |seed| && 0 <= rating - exclude + EloOffset < |winProb| ==>
      r == seed[rating + EloOffset + RatingOffset] - winProb[rating - exclude + EloOffset]
  {
    var index := rating + EloOffset + RatingOffset;
    if index < 0 || index >= |seed| then 1.0
    else
      var excludeIndex := rating - exclude + EloOffset;
      var excludeProb := if 0 <= excludeIndex < |winProb| then winProb[excludeIndex] else 0.0;
      seed[index] - excludeProb
  }

  /** The table's probability that contestant `c` beats a contestant rated
      `rating`; nothing when `c` falls outside the histogram or the difference
      outside the table. */
  function WinContribution(winProb: seq<real>, c: Contestant, rating: int): real {
    var d := rating - c.effectiveRating + EloOffset;
    if 0 <= Bucket(c) < RatingRangeLen && 0 <= d < |winProb| then winProb[d] else 0.0
  }

  /** Expected number of contestants of `cs` that beat a contestant rated `rating`. */
  function WinSum(winProb: seq<real>, cs: seq<Contestant>, rating: int): real
    decreases |cs|
  {
    if cs == [] then 0.0
    else WinSum(winProb, cs[..|cs| - 1], rating) + WinContribution(winProb, cs[|cs| - 1], rating)
  }

  lemma {:induction false} WinSumAppend(winProb: seq<real>, s: seq<Contestant>, t: seq<Contestant>, rating: int)
    ensures WinSum(winProb, s + t, rating) == WinSum(winProb, s, rating) + WinSum(winProb, t, rating)
    decreases |t|
  {
    if t == [] {
      assert s + t == s;
    } else {
      assert (s + t)[..|s + t| - 1] == s + t[..|t| - 1];
      WinSumAppend(winProb, s, t[..|t| - 1], rating);
    }
  }

  lemma {:induction false} ConvZero(a: seq<real>, b: seq<real>, k: int, m: int)
    requires 0 <= m <= |a|
    requires forall j :: 0 <= j < |b| ==> b[j] == 0.0
    ensures ConvPartial(a, b, k, m) == 0.0
  {
    if m > 0 {
      ConvZero(a, b, k, m - 1);
    }
  }

  /** Adding one to bucket `j` adds `a[k - j]` to the convolution at `k`. */
  lemma {:induction false} ConvIncrement(a: seq<real>, b: seq<real>, j: int, k: int, m: int)
    requires 0 <= j < |b| && 0 <= m <= |a|
    ensures ConvPartial(a, b[j := b[j] + 1.0], k, m)
         == ConvPartial(a, b, k, m) + (if 0 <= k - j < m then a[k - j] else 0.0)
  {
    if m > 0 {
      ConvIncrement(a, b, j, k, m - 1);
      var i := m - 1;
      if k - i == j {
        assert a[i] * (b[j] + 1.0) == a[i] * b[j] + a[i];
      }
    }
  }

  /** The convolution with the histogram is, index by index, the expected number
      of contestants that beat the rating the index stands for. */
  lemma {:induction false} ConvolutionIsWinSum(winProb: seq<real>, cs: seq<Contestant>, rating: int)
    requires |winProb| == WinProbLen
    ensures ConvPartial(winProb, Histogram(cs), rating + EloOffset + RatingOffset, WinProbLen)
         == WinSum(winProb, cs, rating)
    decreases |cs|
  {
    var k := rating + EloOffset + RatingOffset;
    if cs == [] {
      ConvZero(winProb, Histogram(cs), k, WinProbLen);
    } else {
      var init := cs[..|cs| - 1];
      var c := cs[|cs| - 1];
      ConvolutionIsWinSum(winProb, init, rating);
      var j := Bucket(c);
      if 0 <= j < RatingRangeLen {
        ConvIncrement(winProb, Histogram(init), j, k, WinProbLen);
      }
    }
  }

  /** The seed at a rating is one plus the expected number of contestants who beat
      it: the rank such a rating is expected to reach. */
  lemma SeedIsExpectedRank(winProb: seq<real>, cs: seq<Contestant>, rating: int)
    requires |winProb| == WinProbLen
    requires 0 <= rating + EloOffset + RatingOffset < SeedLen
    ensures SeedTable(winProb, cs)[rating + EloOffset + RatingOffset] == 1.0 + WinSum(winProb, cs, rating)
  {
    ConvolutionIsWinSum(winProb, cs, rating);
  }

  /** Excluding a contestant's own rating takes exactly that contestant out of the
      expected rank, when the rating lies inside the histogram. */
  lemma GetSeedExcludesSelf(winProb: seq<real>, cs: seq<Contestant>, i: int, rating: int)
    requires |winProb| == WinProbLen && 0 <= i < |cs|
    requires MinRatingLimit <= cs[i].effectiveRating < MaxRatingLimit
    requires 0 <= rating + EloOffset + RatingOffset < SeedLen
    ensures GetSeed(SeedTable(winProb, cs), winProb, rating, cs[i].effectiveRating)
         == 1.0 + WinSum(winProb, cs[..i] + cs[i + 1..], rating)
  {
    SeedIsExpectedRank(winProb, cs, rating);
    WinSumRemove(winProb, cs, i, rating);
  }

  /** The expected rank splits into one contestant's share and everyone else's. */
  lemma WinSumRemove(winProb: seq<real>, cs: seq<Contestant>, i: int, rating: int)
    requires 0 <= i < |cs|
    ensures WinSum(winProb, cs, rating)
         == WinSum(winProb, cs[..i] + cs[i + 1..], rating) + WinContribution(winProb, cs[i], rating)
  {
    assert cs == cs[..i] + ([cs[i]] + cs[i + 1..]);
    WinSumAppend(winProb, cs[..i], [cs[i]] + cs[i + 1..], rating);
    WinSumAppend(winProb, [cs[i]], cs[i + 1..], rating);
    WinSumAppend(winProb, cs[..i], cs[i + 1..], rating);
    assert [cs[i]][..0] == [];
  }

  /** The shape of the Elo table `1 / (1 + 10^(d / 400))`: probabilities that do
      not grow with the rating difference. */
  ghost predicate WinProbShape(winProb: seq<real>) {
    && |winProb| == WinProbLen
    && (forall d :: 0 <= d < |winProb| ==> 0.0 <= winProb[d])
    && (forall d, e :: 0 <= d <= e < |winProb| ==> winProb[e] <= winProb[d])
  }

  /** The higher the rating, the fewer contestants are expected to beat it. */
  lemma {:induction false} WinSumAntitone(winProb: seq<real>, cs: seq<Contestant>, r1: int, r2: int)
    requires WinProbShape(winProb) && MinRatingLimit <= r1 <= r2
    ensures WinSum(winProb, cs, r2) <= WinSum(winProb, cs, r1)
    decreases |cs|
  {
    if cs != [] {
      WinSumAntitone(winProb, cs[..|cs| - 1], r1, r2);
    }
  }
}
