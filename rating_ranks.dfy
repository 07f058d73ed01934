/** `reassignRanks`: the standings order and the rank each contestant receives. */
module RatingRanks {
  import opened Sequences
  import opened Sorting
  import opened RatingSeed

  /** The comparator of `reassignRanks`: more points first, then less penalty.
      `ScoreLe(a, b)` holds when `a` may come before `b`. */
  function ScoreLe(a: Contestant, b: Contestant): bool {
    a.points > b.points || (a.points == b.points && a.penalty <= b.penalty)
  }

  predicate SameScore(a: Contestant, b: Contestant) {
    a.points == b.points && a.penalty == b.penalty
  }

  lemma ScoreLeIsTotalPreorder()
    ensures TotalPreorder(ScoreLe)
  {
  }

  /** Holds of the contestants whose score is at least `points` / `penalty`. */
  function AtLeast(points: int, penalty: int): Contestant -> bool {
    (d: Contestant) => d.points > points || (d.points == points && d.penalty <= penalty)
  }

  /** The rank the backward scan gives `c`: the number of contestants with at least
      its score, so that a tie shares the worst place of its group. */
  function Rank(cs: seq<Contestant>, c: Contestant): (r: nat)
    ensures r <= |cs|
    ensures c in cs ==> 1 <= r
  {
    CountWhereZero(cs, AtLeast(c.points, c.penalty));
    CountWhere(cs, AtLeast(c.points, c.penalty))
  }

  /** The contestants after `reassignRanks`: in standings order, each carrying its rank. */
  function Ranked(cs: seq<Contestant>): (r: seq<Contestant>)
    ensures |r| == |cs|
    ensures multiset(Map(r, (c: Contestant) => c.handle)) == multiset(Map(cs, (c: Contestant) => c.handle))
  {
    var s := Sort(cs, ScoreLe);
    var r := seq(|s|, i requires 0 <= i < |s| => s[i].(rank := Rank(s, s[i])));
    assert Map(r, (c: Contestant) => c.handle) == Map(s, (c: Contestant) => c.handle);
    MapPerm(s, cs, (c: Contestant) => c.handle);
    r
  }

  /** A sequence that holds every contestant of the standings with its rank is `Ranked`. */
  lemma RankedIs(cs: seq<Contestant>, r: seq<Contestant>)
    requires var s := Sort(cs, ScoreLe);
      |r| == |s| && forall j :: 0 <= j < |s| ==> r[j] == s[j].(rank := Rank(s, s[j]))
    ensures r == Ranked(cs)
  {
  }

  /** The rank does not depend on the order of the standings. */
  lemma RankPerm(s: seq<Contestant>, t: seq<Contestant>, c: Contestant)
    requires multiset(s) == multiset(t)
    ensures Rank(s, c) == Rank(t, c)
  {
    CountWherePerm(s, t, AtLeast(c.points, c.penalty));
  }

  /** In sorted standings, the last member of a tie group at position `i` has rank
      `i + 1`: this is what the backward scan assigns. */
  lemma RankAtGroupEnd(s: seq<Contestant>, i: int)
    requires SortedBy(s, ScoreLe) && 0 <= i < |s|
    requires i == |s| - 1 || !SameScore(s[i], s[i + 1])
    ensures Rank(s, s[i]) == i + 1
  {
    var p := AtLeast(s[i].points, s[i].penalty);
    var front, back := s[..i + 1], s[i + 1..];
    assert s == front + back;
    CountWhereAppend(front, back, p);
    CountWhereAll(front, p);
    forall k | 0 <= k < |back|
      ensures !p(back[k])
    {
      assert back[k] == s[i + 1 + k];
      assert ScoreLe(s[i], s[i + 1]) && ScoreLe(s[i + 1], s[i + 1 + k]);
    }
    CountWhereZero(back, p);
  }

  /** Along sorted standings the ranks never go down, and the contestant at
      position `i` has rank `i + 1` or worse. */
  lemma RanksAlongStandings(s: seq<Contestant>)
    requires SortedBy(s, ScoreLe)
    ensures forall i :: 0 <= i < |s| ==> Rank(s, s[i]) >= i + 1
    ensures forall i, j :: 0 <= i <= j < |s| ==> Rank(s, s[i]) <= Rank(s, s[j])
  {
    forall i | 0 <= i < |s|
      ensures Rank(s, s[i]) >= i + 1
    {
      var p := AtLeast(s[i].points, s[i].penalty);
      var front := s[..i + 1];
      assert s == front + s[i + 1..];
      CountWhereAppend(front, s[i + 1..], p);
      forall k | 0 <= k < |front|
        ensures p(front[k])
      {
        assert front[k] == s[k];
        if k < i {
          assert ScoreLe(s[k], s[i]);
        }
      }
      CountWhereAll(front, p);
    }
    forall i, j | 0 <= i <= j < |s|
      ensures Rank(s, s[i]) <= Rank(s, s[j])
    {
      if i < j {
        assert ScoreLe(s[i], s[j]);
        CountWhereMono(s, AtLeast(s[i].points, s[i].penalty), AtLeast(s[j].points, s[j].penalty));
      }
    }
  }

  /** Rank 1 goes exactly to a contestant who beats every other contestant
      outright; a tie for first gives every tied contestant a worse rank. */
  lemma RankOneIffUniqueBest(cs: seq<Contestant>, i: int)
    requires 0 <= i < |cs|
    ensures Rank(cs, cs[i]) == 1 <==> forall j :: 0 <= j < |cs| && j != i ==> !ScoreLe(cs[j], cs[i])
  {
    var p := AtLeast(cs[i].points, cs[i].penalty);
    var front, back := cs[..i], cs[i + 1..];
    assert cs == front + [cs[i]] + back;
    CountWhereAppend(front + [cs[i]], back, p);
    CountWhereAppend(front, [cs[i]], p);
    CountWhereZero(front, p);
    CountWhereZero(back, p);
    assert CountWhere([cs[i]], p) == 1;
    if Rank(cs, cs[i]) == 1 {
      forall j | 0 <= j < |cs| && j != i
        ensures !ScoreLe(cs[j], cs[i])
      {
        if j < i {
          assert cs[j] == front[j];
        } else {
          assert cs[j] == back[j - i - 1];
        }
      }
    } else {
      if k :| 0 <= k < |front| && p(front[k]) {
        assert cs[k] == front[k];
      } else {
        var k :| 0 <= k < |back| && p(back[k]);
        assert cs[i + 1 + k] == back[k];
      }
    }
  }
}
