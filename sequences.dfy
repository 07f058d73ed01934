/** Sequence helpers shared by the models: `Array.prototype.map`, counting with a
    predicate, `reduce` with `+`, and the facts about them that the proofs use. */
module Sequences {

  /** `xs.map((x, i) => f(x, ys[i]))`: each element paired with the element
      of `ys` at the same position. */
  function ZipWith<A, B, C>(xs: seq<A>, ys: seq<B>, f: (A, B) -> C): (r: seq<C>)
    requires |xs| <= |ys|
    ensures |r| == |xs|
    ensures forall k :: 0 <= k < |xs| ==> r[k] == f(xs[k], ys[k])
  {
    seq(|xs|, k requires 0 <= k < |xs| => f(xs[k], ys[k]))
  }

  /** One more element adds its pair at the end. */
  lemma ZipWithSnoc<A, B, C>(xs: seq<A>, ys: seq<B>, f: (A, B) -> C, i: nat)
    requires i < |xs| <= |ys|
    ensures ZipWith(xs[..i + 1], ys, f) == ZipWith(xs[..i], ys, f) + [f(xs[i], ys[i])]
  {
    var r0, r1 := ZipWith(xs[..i], ys, f), ZipWith(xs[..i + 1], ys, f);
    assert forall k :: 0 <= k < i ==> r1[k] == r0[k];
  }

  /** `s.map(f)`. */
  function Map<T, U>(s: seq<T>, f: T -> U): (r: seq<U>)
    ensures |r| == |s|
    ensures forall i :: 0 <= i < |s| ==> r[i] == f(s[i])
  {
    if s == [] then [] else [f(s[0])] + Map(s[1..], f)
  }

  /** `s.filter(p).length`. */
  function CountWhere<T>(s: seq<T>, p: T -> bool): (n: nat)
    ensures n <= |s|
  {
    if s == [] then 0 else (if p(s[0]) then 1 else 0) + CountWhere(s[1..], p)
  }

  /** `s.reduce((sum, x) => sum + x, 0)`. */
  function Sum(s: seq<int>): int
  {
    if s == [] then 0 else s[0] + Sum(s[1..])
  }

  /** Adds `k` to every element (`for (const c of cs) c.delta += k`). */
  function AddToAll(s: seq<int>, k: int): (r: seq<int>)
    ensures |r| == |s|
    ensures forall i :: 0 <= i < |s| ==> r[i] == s[i] + k
  {
    if s == [] then [] else [s[0] + k] + AddToAll(s[1..], k)
  }

  lemma {:induction false} CountWhereAppend<T>(s: seq<T>, t: seq<T>, p: T -> bool)
    ensures CountWhere(s + t, p) == CountWhere(s, p) + CountWhere(t, p)
  {
    if s != [] {
      assert (s + t)[1..] == s[1..] + t;
      CountWhereAppend(s[1..], t, p);
    } else {
      assert s + t == t;
    }
  }

  /** Counting does not depend on the order of the elements. */
  lemma {:induction false} CountWherePerm<T>(s: seq<T>, t: seq<T>, p: T -> bool)
    requires multiset(s) == multiset(t)
    ensures CountWhere(s, p) == CountWhere(t, p)
    decreases |s|
  {
    if s == [] {
      assert |t| == |multiset(t)| == 0;
    } else {
      var j := PermRemoveHead(s, t);
      var x := s[0];
      CountWherePerm(s[1..], t[..j] + t[j + 1..], p);
      assert t == t[..j] + [x] + t[j + 1..];
      CountWhereAppend(t[..j] + [x], t[j + 1..], p);
      CountWhereAppend(t[..j], [x], p);
      CountWhereAppend(t[..j], t[j + 1..], p);
    }
  }

  /** The first element of `s` sits somewhere in its permutation `t`; without it
      the two are still permutations of each other. */
  lemma PermRemoveHead<T>(s: seq<T>, t: seq<T>) returns (j: int)
    requires s != [] && multiset(s) == multiset(t)
    ensures 0 <= j < |t| && t[j] == s[0]
    ensures multiset(s[1..]) == multiset(t[..j] + t[j + 1..])
  {
    var x := s[0];
    assert x in multiset(t);
    j :| 0 <= j < |t| && t[j] == x;
    var rest := t[..j] + t[j + 1..];
    assert t == t[..j] + [x] + t[j + 1..];
    assert s == [x] + s[1..];
    assert multiset(rest) + multiset{x} == multiset(t);
    assert multiset(s[1..]) + multiset{x} == multiset(s);
    assert multiset(rest) == multiset(t) - multiset{x} == multiset(s) - multiset{x} == multiset(s[1..]);
  }

  /** Two sequences that agree position by position on the predicate count alike. */
  lemma {:induction false} CountWherePointwise<T, U>(s: seq<T>, t: seq<U>, p: T -> bool, q: U -> bool)
    requires |s| == |t|
    requires forall i :: 0 <= i < |s| ==> p(s[i]) == q(t[i])
    ensures CountWhere(s, p) == CountWhere(t, q)
  {
    if s != [] {
      CountWherePointwise(s[1..], t[1..], p, q);
    }
  }

  /** The count is zero exactly when no element satisfies the predicate. */
  lemma {:induction false} CountWhereZero<T>(s: seq<T>, p: T -> bool)
    ensures CountWhere(s, p) == 0 <==> forall i :: 0 <= i < |s| ==> !p(s[i])
  {
    if s != [] {
      CountWhereZero(s[1..], p);
      assert forall i :: 1 <= i < |s| ==> s[i] == s[1..][i - 1];
    }
  }

  /** The count is the length exactly when every element satisfies the predicate. */
  lemma {:induction false} CountWhereAll<T>(s: seq<T>, p: T -> bool)
    ensures CountWhere(s, p) == |s| <==> forall i :: 0 <= i < |s| ==> p(s[i])
  {
    if s != [] {
      CountWhereAll(s[1..], p);
      assert forall i :: 1 <= i < |s| ==> s[i] == s[1..][i - 1];
    }
  }

  /** If `p` implies `q` everywhere, `q` counts at least as many elements. */
  lemma {:induction false} CountWhereMono<T>(s: seq<T>, p: T -> bool, q: T -> bool)
    requires forall i :: 0 <= i < |s| && p(s[i]) ==> q(s[i])
    ensures CountWhere(s, p) <= CountWhere(s, q)
  {
    if s != [] {
      assert forall i :: 0 <= i < |s[1..]| ==> s[1..][i] == s[i + 1];
      CountWhereMono(s[1..], p, q);
    }
  }

  /** Mapping keeps a permutation a permutation. */
  lemma {:induction false} MapPerm<T, U>(s: seq<T>, t: seq<T>, f: T -> U)
    requires multiset(s) == multiset(t)
    ensures multiset(Map(s, f)) == multiset(Map(t, f))
    decreases |s|
  {
    if s == [] {
      assert |t| == |multiset(t)| == 0;
    } else {
      var j := PermRemoveHead(s, t);
      MapPerm(s[1..], t[..j] + t[j + 1..], f);
      MapRemove(t, j, f);
      assert Map(s, f) == [f(s[0])] + Map(s[1..], f);
      assert multiset(Map(s, f)) == multiset{f(s[0])} + multiset(Map(s[1..], f));
    }
  }

  /** Taking one element out of a sequence takes its image out of the mapped multiset. */
  lemma {:induction false} MapRemove<T, U>(t: seq<T>, j: int, f: T -> U)
    requires 0 <= j < |t|
    ensures multiset(Map(t, f)) == multiset(Map(t[..j] + t[j + 1..], f)) + multiset{f(t[j])}
  {
    var a, b := t[..j], t[j + 1..];
    assert t == a + [t[j]] + b;
    MapAppend(a, [t[j]], f);
    MapAppend(a + [t[j]], b, f);
    MapAppend(a, b, f);
    assert Map([t[j]], f) == [f(t[j])];
  }

  lemma {:induction false} MapAppend<T, U>(s: seq<T>, t: seq<T>, f: T -> U)
    ensures Map(s + t, f) == Map(s, f) + Map(t, f)
  {
    assert |Map(s + t, f)| == |Map(s, f) + Map(t, f)|;
    forall i | 0 <= i < |s + t|
      ensures Map(s + t, f)[i] == (Map(s, f) + Map(t, f))[i]
    {
      if i < |s| {
        assert (s + t)[i] == s[i];
      } else {
        assert (s + t)[i] == t[i - |s|];
      }
    }
  }

  lemma {:induction false} SumAppend(s: seq<int>, t: seq<int>)
    ensures Sum(s + t) == Sum(s) + Sum(t)
  {
    if s != [] {
      assert (s + t)[1..] == s[1..] + t;
      SumAppend(s[1..], t);
    } else {
      assert s + t == t;
    }
  }

  /** Shifting every element by `k` shifts the total by `|s| * k`. */
  lemma {:induction false} SumAddToAll(s: seq<int>, k: int)
    ensures Sum(AddToAll(s, k)) == Sum(s) + |s| * k
  {
    if s != [] {
      SumAddToAll(s[1..], k);
      assert AddToAll(s, k)[1..] == AddToAll(s[1..], k);
    }
  }

  /** Adding one at position `i` adds one to the total. */
  lemma {:induction false} SumIncrementAt(s: seq<int>, i: int)
    requires 0 <= i < |s|
    ensures Sum(s[i := s[i] + 1]) == Sum(s) + 1
  {
    if i > 0 {
      assert s[i := s[i] + 1][1..] == s[1..][i - 1 := s[1..][i - 1] + 1];
      SumIncrementAt(s[1..], i - 1);
    } else {
      assert s[i := s[i] + 1][1..] == s[1..];
    }
  }

  /** `s.filter(p)`: the elements that pass, in order. */
  function Filter<T>(s: seq<T>, p: T -> bool): (r: seq<T>)
    ensures |r| <= |s|
    ensures forall k :: 0 <= k < |r| ==> p(r[k]) && r[k] in s
  {
    if s == [] then [] else (if p(s[0]) then [s[0]] else []) + Filter(s[1..], p)
  }

  /** Filtering distributes over concatenation, so what passes keeps its
      relative order. */
  lemma {:induction false} FilterAppend<T>(s: seq<T>, t: seq<T>, p: T -> bool)
    ensures Filter(s + t, p) == Filter(s, p) + Filter(t, p)
  {
    if s != [] {
      assert (s + t)[1..] == s[1..] + t;
      FilterAppend(s[1..], t, p);
    } else {
      assert s + t == t;
    }
  }

  /** Every element that passes is kept as often as it occurs; the others are
      dropped. */
  lemma {:induction false} FilterMultiset<T>(s: seq<T>, p: T -> bool, x: T)
    ensures multiset(Filter(s, p))[x] == if p(x) then multiset(s)[x] else 0
  {
    if s != [] {
      var rest := Filter(s[1..], p);
      FilterMultiset(s[1..], p, x);
      assert s == [s[0]] + s[1..];
      assert multiset(s) == multiset([s[0]]) + multiset(s[1..]);
      if p(s[0]) {
        assert Filter(s, p) == [s[0]] + rest;
        assert multiset(Filter(s, p)) == multiset([s[0]]) + multiset(rest);
      } else {
        assert Filter(s, p) == rest;
      }
    }
  }

  /** Nothing is dropped when everything passes. */
  lemma {:induction false} FilterAll<T>(s: seq<T>, p: T -> bool)
    requires forall k :: 0 <= k < |s| ==> p(s[k])
    ensures Filter(s, p) == s
  {
    if s != [] {
      FilterAll(s[1..], p);
    }
  }
}
