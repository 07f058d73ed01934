/** The recommended problems panel: the rating window, the solved set, the
    filtering and ranking of the problem set, the variety rule that avoids
    repeating the last recommendations, and the shuffle of the top 30. */
module RecommendedQuestions {
  import opened Wrappers
  import opened Sorting
  import opened Text

  // ------------------------------------------------------------ rating window

  datatype RatingWindow = RatingWindow(min: int, max: int)

  /** A rating the script treats as present: `null` and `0` are falsy. */
  predicate HasRating(userRating: Option<int>) {
    userRating.Some? && userRating.value != 0
  }

  /** `calculateTargetRating`: from 200 below to 300 above the user's rating,
      never below 800; 800 to 1400 without a rating. */
  function TargetRating(userRating: Option<int>): (w: RatingWindow)
    ensures w.min >= 800
    ensures !HasRating(userRating) ==> w == RatingWindow(800, 1400)
    ensures HasRating(userRating) ==> w.max == userRating.value + 300
    ensures HasRating(userRating) ==> w.min == (if userRating.value >= 1000 then userRating.value - 200 else 800)
  {
    if !HasRating(userRating) then RatingWindow(800, 1400)
    else
      var baseRating := userRating.value;
      RatingWindow(if 800 > baseRating - 200 then 800 else baseRating - 200, baseRating + 300)
  }

  /** The window holds some rating exactly when there is no rating or it is at
      least 500: below that, the upper end falls under the floor of 800 and no
      problem can be recommended. */
  lemma TargetRatingNonEmpty(userRating: Option<int>)
    ensures TargetRating(userRating).min <= TargetRating(userRating).max <==>
      !HasRating(userRating) || userRating.value >= 500
    ensures HasRating(userRating) && userRating.value >= 1000 ==>
      TargetRating(userRating).min < userRating.value < TargetRating(userRating).max
  {
  }

  // ------------------------------------------------------------ rating colour

  /** The rating at which each colour after grey starts. */
  const ColourThresholds: seq<int> := [1200, 1400, 1600, 1900, 2100, 2400]

  const RatingColours: seq<string> := ["#808080", "#008000", "#03a89e", "#0000ff", "#aa00aa", "#ff8c00", "#ff0000"]

  /** `getRatingColor`. */
  function RatingColor(rating: int): string {
    if rating < 1200 then "#808080"
    else if rating < 1400 then "#008000"
    else if rating < 1600 then "#03a89e"
    else if rating < 1900 then "#0000ff"
    else if rating < 2100 then "#aa00aa"
    else if rating < 2400 then "#ff8c00"
    else "#ff0000"
  }

  /** How many thresholds the rating reaches. */
  function ThresholdsReached(thresholds: seq<int>, rating: int): (n: nat)
    ensures n <= |thresholds|
  {
    if thresholds == [] then 0
    else (if thresholds[0] <= rating then 1 else 0) + ThresholdsReached(thresholds[1..], rating)
  }

  /** The colour of a rating is the one after as many steps as thresholds it
      reaches; from 2400 on it is red. */
  lemma RatingColorByThresholds(rating: int)
    ensures RatingColor(rating) == RatingColours[ThresholdsReached(ColourThresholds, rating)]
    ensures rating >= 2400 ==> RatingColor(rating) == "#ff0000"
  {
    var b := (x: int) => if x <= rating then 1 else 0;
    assert ThresholdsReached([2400], rating) == b(2400) by {
      assert [2400][1..] == [];
    }
    assert ThresholdsReached([2100, 2400], rating) == b(2100) + b(2400) by {
      assert [2100, 2400][1..] == [2400];
    }
    assert ThresholdsReached([1900, 2100, 2400], rating) == b(1900) + b(2100) + b(2400) by {
      assert [1900, 2100, 2400][1..] == [2100, 2400];
    }
    assert ThresholdsReached([1600, 1900, 2100, 2400], rating) == b(1600) + b(1900) + b(2100) + b(2400) by {
      assert [1600, 1900, 2100, 2400][1..] == [1900, 2100, 2400];
    }
    assert ThresholdsReached([1400, 1600, 1900, 2100, 2400], rating) == b(1400) + b(1600) + b(1900) + b(2100) + b(2400) by {
      assert [1400, 1600, 1900, 2100, 2400][1..] == [1600, 1900, 2100, 2400];
    }
    assert ColourThresholds[1..] == [1400, 1600, 1900, 2100, 2400];
  }

  // ---------------------------------------------------------------- problems

  /** A problem of the problem set; `rating` is absent for unrated problems. */
  datatype Problem = Problem(contestId: nat, index: string, rating: Option<int>, tags: seq<string>)

  /** A problem's statistics. */
  datatype Stat = Stat(contestId: nat, index: string, solvedCount: int)

  /** A submission of the user, as `user.status` lists it. */
  datatype Submission = Submission(contestId: nat, index: string, verdict: string)

  /** A `user.status` reply, and a `problemset.problems` reply. */
  datatype StatusReply = StatusReply(status: string, result: seq<Submission>)
  datatype ProblemSet = ProblemSet(problems: seq<Problem>, statistics: seq<Stat>)
  datatype ProblemsReply = ProblemsReply(status: string, result: ProblemSet)

  /** The key `${contestId}${index}`. */
  function ProblemId(contestId: nat, index: string): string {
    NatToString(contestId) + index
  }

  /** Problem keys name one problem as long as problem indices start with a
      letter, as Codeforces indices do. */
  lemma ProblemIdInjective(c1: nat, i1: string, c2: nat, i2: string)
    requires i1 == [] || !IsDigit(i1[0])
    requires i2 == [] || !IsDigit(i2[0])
    requires ProblemId(c1, i1) == ProblemId(c2, i2)
    ensures c1 == c2 && i1 == i2
  {
    var d1, d2 := NatToString(c1), NatToString(c2);
    DigitPrefixLenAppend(d1, i1);
    DigitPrefixLenAppend(d2, i2);
    assert d1 == (d1 + i1)[..|d1|];
    assert d2 == (d2 + i2)[..|d2|];
    NatToStringInjective(c1, c2);
    assert i1 == (d1 + i1)[|d1|..];
    assert i2 == (d2 + i2)[|d2|..];
  }

  // ------------------------------------------------------------- solved set

  /** A submission that solves its problem. */
  predicate Accepted(s: Submission) {
    s.verdict == "OK"
  }

  /** `getUserSolvedProblems`: the keys of the accepted submissions; empty
      without a handle, when the request fails (`reply` is `None`) or when the
      reply's status is not OK. */
  method GetUserSolvedProblems(userHandle: Option<string>, reply: Option<StatusReply>) returns (solved: set<string>)
    ensures (userHandle.None? || reply.None? || reply.value.status != "OK") ==> solved == {}
    ensures userHandle.Some? && reply.Some? && reply.value.status == "OK" ==>
      forall id :: id in solved <==>
        exists k :: 0 <= k < |reply.value.result| && Accepted(reply.value.result[k])
          && id == ProblemId(reply.value.result[k].contestId, reply.value.result[k].index)
  {
    solved := {};
    if userHandle.None? || reply.None? {
      return;
    }
    var data := reply.value;
    if data.status == "OK" {
      for i := 0 to |data.result|
        invariant forall id :: id in solved <==>
          exists k :: 0 <= k < i && Accepted(data.result[k])
            && id == ProblemId(data.result[k].contestId, data.result[k].index)
      {
        var submission := data.result[i];
        if submission.verdict == "OK" {
          solved := solved + {ProblemId(submission.contestId, submission.index)};
        }
      }
    }
  }

  // ------------------------------------------------------------- statistics

  /** The statistics by problem key; for a key listed twice the later entry
      wins, as with `Map.set`. */
  function StatsMap(statistics: seq<Stat>): map<string, Stat> {
    if statistics == [] then map[]
    else
      var last := statistics[|statistics| - 1];
      StatsMap(statistics[..|statistics| - 1])[ProblemId(last.contestId, last.index) := last]
  }

  /** A key maps to the last statistics entry listed under it, and only listed
      keys are present. */
  lemma {:induction false} StatsMapLookup(statistics: seq<Stat>, id: string)
    ensures id in StatsMap(statistics) <==>
      exists k :: 0 <= k < |statistics| && ProblemId(statistics[k].contestId, statistics[k].index) == id
    ensures id in StatsMap(statistics) ==>
      exists k :: 0 <= k < |statistics| && StatsMap(statistics)[id] == statistics[k]
        && ProblemId(statistics[k].contestId, statistics[k].index) == id
        && forall m :: k < m < |statistics| ==> ProblemId(statistics[m].contestId, statistics[m].index) != id
  {
    if statistics != [] {
      var init := statistics[..|statistics| - 1];
      StatsMapLookup(init, id);
      assert forall k :: 0 <= k < |init| ==> init[k] == statistics[k];
    }
  }

  // -------------------------------------------------------------- candidates

  /** A candidate: the problem with its statistics and its score. */
  datatype Candidate = Candidate(problem: Problem, stats: Stat, score: real)

  function Abs(x: int): nat {
    if x < 0 then -x else x
  }

  function MaxReal(a: real, b: real): real {
    if a >= b then a else b
  }

  function MinReal(a: real, b: real): real {
    if a <= b then a else b
  }

  /** The bonus of each favoured tag. */
  function TagBonus(tags: seq<string>): real {
    (if "implementation" in tags then 5.0 else 0.0)
    + (if "math" in tags then 5.0 else 0.0)
    + (if "greedy" in tags then 5.0 else 0.0)
    + (if "dp" in tags then 10.0 else 0.0)
    + (if "graph" in tags then 10.0 else 0.0)
  }

  /** A candidate's score: closeness of its rating to 100 above the user's
      (a missing rating counting as 0), popularity, and tag bonuses.
      `popularity(n)` stands for `Math.log(n) * 10`. */
  function Score(rating: int, userRating: Option<int>, solvedCount: int, tags: seq<string>, popularity: int -> real): (s: real)
    ensures s <= 100.0 + 50.0 + 35.0
  {
    var ratingDiff := Abs(rating - (userRating.GetOr(0) + 100));
    MaxReal(0.0, 100.0 - ratingDiff as real / 10.0) + MinReal(50.0, popularity(solvedCount)) + TagBonus(tags)
  }

  /** The filter of `getRecommendedProblems`: a rated problem inside the
      window, not solved, with statistics showing more than 50 solvers. */
  predicate Eligible(p: Problem, window: RatingWindow, solved: set<string>, stats: map<string, Stat>) {
    var id := ProblemId(p.contestId, p.index);
    && p.rating.Some? && p.rating.value != 0
    && window.min <= p.rating.value <= window.max
    && id !in solved
    && id in stats && stats[id].solvedCount > 50
  }

  /** The candidate an eligible problem becomes. */
  function ToCandidate(p: Problem, stats: map<string, Stat>, userRating: Option<int>, popularity: int -> real): Candidate
    requires ProblemId(p.contestId, p.index) in stats && p.rating.Some?
  {
    var st := stats[ProblemId(p.contestId, p.index)];
    Candidate(p, st, Score(p.rating.value, userRating, st.solvedCount, p.tags, popularity))
  }

  /** The candidates in problem set order. */
  function Scored(problems: seq<Problem>, window: RatingWindow, solved: set<string>, stats: map<string, Stat>,
                  userRating: Option<int>, popularity: int -> real): seq<Candidate>
  {
    if problems == [] then []
    else
      var init := Scored(problems[..|problems| - 1], window, solved, stats, userRating, popularity);
      var p := problems[|problems| - 1];
      if Eligible(p, window, solved, stats) then init + [ToCandidate(p, stats, userRating, popularity)] else init
  }

  /** The comparator `b.score - a.score`: higher scores first. */
  function HigherScore(a: Candidate, b: Candidate): bool {
    a.score >= b.score
  }

  /** The candidates, best score first. */
  function Ranked(set_: ProblemSet, window: RatingWindow, solved: set<string>, userRating: Option<int>, popularity: int -> real): seq<Candidate> {
    Sort(Scored(set_.problems, window, solved, StatsMap(set_.statistics), userRating, popularity), HigherScore)
  }

  /** Every candidate in `cs` is an eligible problem of `problems` with its
      statistics and score. */
  predicate FromProblems(cs: seq<Candidate>, problems: seq<Problem>, window: RatingWindow, solved: set<string>,
                         stats: map<string, Stat>, userRating: Option<int>, popularity: int -> real)
  {
    forall k :: 0 <= k < |cs| ==>
      && cs[k].problem in problems
      && Eligible(cs[k].problem, window, solved, stats)
      && cs[k] == ToCandidate(cs[k].problem, stats, userRating, popularity)
  }

  /** Every eligible problem of `problems` is a candidate in `cs`. */
  predicate CoversEligible(cs: seq<Candidate>, problems: seq<Problem>, window: RatingWindow, solved: set<string>,
                           stats: map<string, Stat>, userRating: Option<int>, popularity: int -> real)
  {
    forall i :: 0 <= i < |problems| && Eligible(problems[i], window, solved, stats) ==>
      ToCandidate(problems[i], stats, userRating, popularity) in cs
  }

  /** The candidates are exactly the eligible problems, each with its
      statistics and score. */
  lemma {:induction false} ScoredIsFilter(problems: seq<Problem>, window: RatingWindow, solved: set<string>, stats: map<string, Stat>,
                                          userRating: Option<int>, popularity: int -> real)
    ensures FromProblems(Scored(problems, window, solved, stats, userRating, popularity), problems, window, solved, stats, userRating, popularity)
    ensures CoversEligible(Scored(problems, window, solved, stats, userRating, popularity), problems, window, solved, stats, userRating, popularity)
  {
    if problems != [] {
      var init := problems[..|problems| - 1];
      var p := problems[|problems| - 1];
      var cs0 := Scored(init, window, solved, stats, userRating, popularity);
      var cs := Scored(problems, window, solved, stats, userRating, popularity);
      ScoredIsFilter(init, window, solved, stats, userRating, popularity);
      assert problems == init + [p];
      forall k | 0 <= k < |cs|
        ensures cs[k].problem in problems
        ensures Eligible(cs[k].problem, window, solved, stats)
        ensures cs[k] == ToCandidate(cs[k].problem, stats, userRating, popularity)
      {
        if k < |cs0| {
          assert cs[k] == cs0[k];
        }
      }
      forall i | 0 <= i < |problems| && Eligible(problems[i], window, solved, stats)
        ensures ToCandidate(problems[i], stats, userRating, popularity) in cs
      {
        if i < |init| {
          assert problems[i] == init[i];
        }
      }
    }
  }

  /** Every ranked candidate is an eligible problem of the set with its
      statistics and score; every eligible problem is ranked; and the ranking
      puts higher scores first. */
  lemma RankedCandidates(set_: ProblemSet, window: RatingWindow, solved: set<string>, userRating: Option<int>, popularity: int -> real)
    ensures FromProblems(Ranked(set_, window, solved, userRating, popularity), set_.problems, window, solved,
                         StatsMap(set_.statistics), userRating, popularity)
    ensures CoversEligible(Ranked(set_, window, solved, userRating, popularity), set_.problems, window, solved,
                           StatsMap(set_.statistics), userRating, popularity)
    ensures SortedBy(Ranked(set_, window, solved, userRating, popularity), HigherScore)
  {
    var stats := StatsMap(set_.statistics);
    var cs := Scored(set_.problems, window, solved, stats, userRating, popularity);
    var r := Ranked(set_, window, solved, userRating, popularity);
    ScoredIsFilter(set_.problems, window, solved, stats, userRating, popularity);
    SortSorted(cs, HigherScore);
    assert forall c :: c in r <==> c in cs by {
      assert multiset(r) == multiset(cs);
      forall c ensures c in r <==> c in cs {
        assert c in r <==> c in multiset(r);
        assert c in cs <==> c in multiset(cs);
      }
    }
    forall k | 0 <= k < |r|
      ensures r[k].problem in set_.problems
      ensures Eligible(r[k].problem, window, solved, stats)
      ensures r[k] == ToCandidate(r[k].problem, stats, userRating, popularity)
    {
      assert r[k] in cs;
    }
  }

  // ------------------------------------------------------------------ variety

  function IdOf(c: Candidate): string {
    ProblemId(c.problem.contestId, c.problem.index)
  }

  /** The keys of the last recommendations. */
  function RecentIds(last: seq<Candidate>): set<string> {
    set k | 0 <= k < |last| :: IdOf(last[k])
  }

  /** The candidates not recommended last time, in order. */
  function NotRecent(candidates: seq<Candidate>, recent: set<string>): (r: seq<Candidate>)
    ensures |r| <= |candidates|
    ensures forall c :: c in candidates && IdOf(c) !in recent ==> c in r
  {
    if candidates == [] then []
    else
      var init := candidates[..|candidates| - 1];
      var c := candidates[|candidates| - 1];
      assert candidates == init + [c];
      NotRecent(init, recent) + (if IdOf(c) in recent then [] else [c])
  }

  /** Dropping recent problems keeps a sub-multiset of the candidates. */
  lemma {:induction false} NotRecentSubMultiset(candidates: seq<Candidate>, recent: set<string>)
    ensures multiset(NotRecent(candidates, recent)) <= multiset(candidates)
  {
    if candidates != [] {
      var init, c := candidates[..|candidates| - 1], candidates[|candidates| - 1];
      NotRecentSubMultiset(init, recent);
      assert candidates == init + [c];
    }
  }

  /** The candidates left once recent ones are dropped, unless fewer than 10
      would remain. */
  function FinalCandidates(candidates: seq<Candidate>, last: seq<Candidate>): seq<Candidate> {
    var filtered := NotRecent(candidates, RecentIds(last));
    if |filtered| >= 10 then filtered else candidates
  }

  lemma {:induction false} NotRecentExcludes(candidates: seq<Candidate>, recent: set<string>)
    ensures forall k :: 0 <= k < |NotRecent(candidates, recent)| ==> IdOf(NotRecent(candidates, recent)[k]) !in recent
  {
    if candidates != [] {
      var init := candidates[..|candidates| - 1];
      var c := candidates[|candidates| - 1];
      NotRecentExcludes(init, recent);
      var r0 := NotRecent(init, recent);
      var r := NotRecent(candidates, recent);
      assert r == r0 + (if IdOf(c) in recent then [] else [c]);
      forall k | 0 <= k < |r| ensures IdOf(r[k]) !in recent {
        if k < |r0| {
          assert r[k] == r0[k];
        }
      }
    }
  }

  lemma {:induction false} NotRecentOfNothing(candidates: seq<Candidate>)
    ensures NotRecent(candidates, {}) == candidates
  {
    if candidates != [] {
      var init, c := candidates[..|candidates| - 1], candidates[|candidates| - 1];
      assert NotRecent(candidates, {}) == NotRecent(init, {}) + [c];
      NotRecentOfNothing(init);
      assert init + [c] == candidates;
    }
  }

  /** The variety rule: with ten or more fresh candidates no recent problem is
      offered again; otherwise all candidates stay. Either way only candidates
      are offered, and with nothing recent all of them. */
  lemma VarietyRule(candidates: seq<Candidate>, last: seq<Candidate>)
    ensures multiset(FinalCandidates(candidates, last)) <= multiset(candidates)
    ensures |NotRecent(candidates, RecentIds(last))| >= 10 ==>
      forall k :: 0 <= k < |FinalCandidates(candidates, last)| ==> IdOf(FinalCandidates(candidates, last)[k]) !in RecentIds(last)
    ensures |NotRecent(candidates, RecentIds(last))| < 10 ==> FinalCandidates(candidates, last) == candidates
    ensures last == [] ==> FinalCandidates(candidates, last) == candidates
  {
    NotRecentExcludes(candidates, RecentIds(last));
    NotRecentSubMultiset(candidates, RecentIds(last));
    if last == [] {
      assert RecentIds(last) == {};
      NotRecentOfNothing(candidates);
    }
  }

  // ----------------------------------------------------------------- shuffle

  /** `shuffleArray`: Fisher–Yates, from the last element down; the random
      index may be any of `0..i`. */
  method ShuffleArray<T>(a: array<T>)
    modifies a
    ensures multiset(a[..]) == multiset(old(a[..]))
  {
    var i := a.Length - 1;
    while i > 0
      invariant i < a.Length
      invariant multiset(a[..]) == multiset(old(a[..]))
    {
      var j :| 0 <= j <= i;
      a[i], a[j] := a[j], a[i];
      i := i - 1;
    }
  }

  function Min(a: int, b: int): int {
    if a <= b then a else b
  }

  lemma PrefixSubMultiset<T>(s: seq<T>, n: int)
    requires 0 <= n <= |s|
    ensures multiset(s[..n]) <= multiset(s)
  {
    assert s == s[..n] + s[n..];
  }

  // ----------------------------------------------------------------- feature

  /** The problem set the request works from: the cached one, else a fetched
      reply with status OK; `None` is the error path. */
  function SourceSet(cached: Option<ProblemSet>, fetched: Option<ProblemsReply>): Option<ProblemSet> {
    if cached.Some? then cached
    else if fetched.Some? && fetched.value.status == "OK" then Some(fetched.value.result)
    else None
  }

  class RecommendedQuestionsFeature {
    var userRating: Option<int>
    var cachedProblems: Option<ProblemSet>
    var lastRecommendations: seq<Candidate>

    constructor ()
      ensures userRating.None? && cachedProblems.None? && lastRecommendations == []
    {
      userRating := None;
      cachedProblems := None;
      lastRecommendations := [];
    }

    /** `getRecommendedProblems`: at most ten problems, all among the first 30
      final candidates, remembered as the last recommendations; the problem
      set is cached on first use; on failure nothing is recommended and
      nothing changes. `fetched` is the reply to the request made when nothing
      is cached (`None` when the request fails). */
    method GetRecommendedProblems(target: RatingWindow, solved: set<string>, fetched: Option<ProblemsReply>, popularity: int -> real)
      returns (recommendations: seq<Candidate>)
      modifies this
      ensures userRating == old(userRating)
      ensures SourceSet(old(cachedProblems), fetched).None? ==>
        recommendations == [] && cachedProblems == old(cachedProblems) && lastRecommendations == old(lastRecommendations)
      ensures SourceSet(old(cachedProblems), fetched).Some? ==>
        var set_ := SourceSet(old(cachedProblems), fetched).value;
        var final := FinalCandidates(Ranked(set_, target, solved, userRating, popularity), old(lastRecommendations));
        && cachedProblems == Some(set_)
        && |recommendations| == Min(10, Min(30, |final|))
        && multiset(recommendations) <= multiset(final[..Min(30, |final|)])
        && lastRecommendations == recommendations
    {
      var set_: ProblemSet;
      if cachedProblems.Some? {
        set_ := cachedProblems.value;
      } else {
        if fetched.None? || fetched.value.status != "OK" {
          recommendations := [];
          return;
        }
        set_ := fetched.value.result;
        cachedProblems := Some(set_);
      }
      var candidates := Ranked(set_, target, solved, userRating, popularity);
      var final := FinalCandidates(candidates, lastRecommendations);
      var top := final[..Min(30, |final|)];
      var a := new Candidate[|top|](i requires 0 <= i < |top| => top[i]);
      assert a[..] == top;
      ShuffleArray(a);
      recommendations := a[..Min(10, a.Length)];
      PrefixSubMultiset(a[..], Min(10, a.Length));
      lastRecommendations := recommendations;
    }

    /** `refreshRecommendations`: forgets the last recommendations, then loads
      new ones for the user's window, so no candidate is held back. */
    method RefreshRecommendations(solved: set<string>, fetched: Option<ProblemsReply>, popularity: int -> real)
      returns (recommendations: seq<Candidate>)
      modifies this
      ensures userRating == old(userRating)
      ensures SourceSet(old(cachedProblems), fetched).None? ==>
        recommendations == [] && lastRecommendations == [] && cachedProblems == old(cachedProblems)
      ensures SourceSet(old(cachedProblems), fetched).Some? ==>
        var ranked := Ranked(SourceSet(old(cachedProblems), fetched).value, TargetRating(userRating), solved, userRating, popularity);
        && cachedProblems == SourceSet(old(cachedProblems), fetched)
        && |recommendations| == Min(10, Min(30, |ranked|))
        && multiset(recommendations) <= multiset(ranked[..Min(30, |ranked|)])
        && lastRecommendations == recommendations
    {
      lastRecommendations := [];
      VarietyRule(Ranked(SourceSet(cachedProblems, fetched).GetOr(ProblemSet([], [])), TargetRating(userRating), solved, userRating, popularity), []);
      recommendations := GetRecommendedProblems(TargetRating(userRating), solved, fetched, popularity);
    }
  }
}
