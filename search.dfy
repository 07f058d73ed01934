/** The two binary searches over an integer range.  `LastTrue` is the loop
    `mid = floor((left + right + 1) / 2); if p(mid) then left = mid else right = mid - 1`,
    which finds the last rating at which a downward-closed condition holds.
    `FirstTrue` is the mirror loop `mid = floor((left + right) / 2);
    if p(mid) then right = mid else left = mid + 1`, which finds the first rating at
    which an upward-closed condition holds. */
module Search {

  /** Whatever `p` is, the `left = mid` search stops where `p` holds (or at
      `lo`) and the next value fails (or it is `hi`). */
  function LastTrue(lo: int, hi: int, p: int -> bool): (r: int)
    requires lo <= hi
    ensures lo <= r <= hi
    ensures (r == lo || p(r)) && (r == hi || !p(r + 1))
    decreases hi - lo
  {
    if lo == hi then lo
    else
      var mid := (lo + hi + 1) / 2;
      if p(mid) then LastTrue(mid, hi, p) else LastTrue(lo, mid - 1, p)
  }

  /** Whatever `p` is, the `right = mid` search stops where `p` holds (or at
      `hi`) and the previous value fails (or it is `lo`). */
  function FirstTrue(lo: int, hi: int, p: int -> bool): (r: int)
    requires lo <= hi
    ensures lo <= r <= hi
    ensures (r == hi || p(r)) && (r == lo || !p(r - 1))
    decreases hi - lo
  {
    if lo == hi then lo
    else
      var mid := (lo + hi) / 2;
      if p(mid) then FirstTrue(lo, mid, p) else FirstTrue(mid + 1, hi, p)
  }

  ghost predicate DownwardClosed(lo: int, hi: int, p: int -> bool) {
    forall x, y :: lo <= x <= y <= hi && p(y) ==> p(x)
  }

  ghost predicate UpwardClosed(lo: int, hi: int, p: int -> bool) {
    forall x, y :: lo <= x <= y <= hi && p(x) ==> p(y)
  }

  /** For a downward-closed condition, `LastTrue` is the largest value satisfying
      it, and `lo` when none does. */
  lemma LastTrueDownwardClosed(lo: int, hi: int, p: int -> bool)
    requires lo <= hi && DownwardClosed(lo, hi, p)
    ensures var r := LastTrue(lo, hi, p);
      forall x :: lo <= x <= hi ==> (p(x) <==> p(lo) && x <= r)
    ensures !p(lo) ==> LastTrue(lo, hi, p) == lo
  {
  }

  /** For an upward-closed condition, `LastTrue` can only return an end of the
      range: it cannot find a threshold inside it. */
  lemma LastTrueUpwardClosed(lo: int, hi: int, p: int -> bool)
    requires lo <= hi && UpwardClosed(lo, hi, p)
    ensures LastTrue(lo, hi, p) == lo || LastTrue(lo, hi, p) == hi
  {
  }

  /** The condition "at least 3000" over the performance range -500 .. 6000:
      `LastTrue` answers -500, not the threshold 3000. */
  lemma LastTrueMissesThreshold()
    ensures LastTrue(-500, 6000, x => x >= 3000) == -500
  {
    var p: int -> bool := x => x >= 3000;
    assert (-500 + 6000 + 1) / 2 == 2750 && !p(2750);
    assert LastTrue(-500, 6000, p) == LastTrue(-500, 2749, p);
    LastTrueDownwardClosed(-500, 2749, p);
  }

  /** For an upward-closed condition, `FirstTrue` is the smallest value satisfying
      it, and `hi` when none does. */
  lemma FirstTrueUpwardClosed(lo: int, hi: int, p: int -> bool)
    requires lo <= hi && UpwardClosed(lo, hi, p)
    ensures var r := FirstTrue(lo, hi, p);
      forall x :: lo <= x <= hi ==> (p(x) <==> p(hi) && r <= x)
    ensures !p(hi) ==> FirstTrue(lo, hi, p) == hi
  {
  }

  /** On the same condition `FirstTrue` finds the threshold. */
  lemma FirstTrueFindsThreshold()
    ensures FirstTrue(-500, 6000, x => x >= 3000) == 3000
  {
    var p: int -> bool := x => x >= 3000;
    FirstTrueUpwardClosed(-500, 6000, p);
    assert p(3000) && !p(2999);
  }

  /** The `left = mid` loop itself: it returns `LastTrue`. */
  method SearchLastTrue(lo: int, hi: int, p: int -> bool) returns (r: int)
    requires lo <= hi
    ensures r == LastTrue(lo, hi, p)
  {
    var left, right := lo, hi;
    while left < right
      invariant lo <= left <= right <= hi
      invariant LastTrue(left, right, p) == LastTrue(lo, hi, p)
      decreases right - left
    {
      var mid := (left + right + 1) / 2;
      if p(mid) {
        left := mid;
      } else {
        right := mid - 1;
      }
    }
    r := left;
  }

  /** The mirror loop: it returns `FirstTrue`. */
  method SearchFirstTrue(lo: int, hi: int, p: int -> bool) returns (r: int)
    requires lo <= hi
    ensures r == FirstTrue(lo, hi, p)
  {
    var left, right := lo, hi;
    while left < right
      invariant lo <= left <= right <= hi
      invariant FirstTrue(left, right, p) == FirstTrue(lo, hi, p)
      decreases right - left
    {
      var mid := (left + right) / 2;
      if p(mid) {
        right := mid;
      } else {
        left := mid + 1;
      }
    }
    r := left;
  }
}
