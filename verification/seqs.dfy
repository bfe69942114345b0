/** Order-preserving filtering over sequences, the model of
    `Array.prototype.filter`, and the facts about it the components rely on. */
module Seqs {

  /** The elements of `s` satisfying `p`, in their original order. */
  function Filter<T(!new)>(s: seq<T>, p: T -> bool): (r: seq<T>)
    ensures |r| <= |s|
    ensures forall x :: x in r <==> x in s && p(x)
    ensures forall i :: 0 <= i < |r| ==> p(r[i])
  {
    if |s| == 0 then []
    else (if p(s[0]) then [s[0]] else []) + Filter(s[1..], p)
  }

  /** Filtering distributes over concatenation. */
  lemma {:induction false} FilterConcat<T(!new)>(a: seq<T>, b: seq<T>, p: T -> bool)
    ensures Filter(a + b, p) == Filter(a, p) + Filter(b, p)
  {
    if |a| == 0 {
      assert a + b == b;
    } else {
      assert (a + b)[1..] == a[1..] + b;
      FilterConcat(a[1..], b, p);
    }
  }

  /** A filter every element passes changes nothing. */
  lemma {:induction false} FilterKeepsAll<T(!new)>(s: seq<T>, p: T -> bool)
    requires forall i :: 0 <= i < |s| ==> p(s[i])
    ensures Filter(s, p) == s
  {
    if |s| > 0 {
      FilterKeepsAll(s[1..], p);
    }
  }

  /** A filter no element passes leaves nothing. */
  lemma {:induction false} FilterDropsAll<T(!new)>(s: seq<T>, p: T -> bool)
    requires forall i :: 0 <= i < |s| ==> !p(s[i])
    ensures Filter(s, p) == []
  {
    if |s| > 0 {
      FilterDropsAll(s[1..], p);
    }
  }

  /** Filtering a sequence extended at the end. */
  lemma FilterSnoc<T(!new)>(s: seq<T>, x: T, p: T -> bool)
    ensures Filter(s + [x], p) == Filter(s, p) + (if p(x) then [x] else [])
  {
    FilterConcat(s, [x], p);
    FilterSingle(x, p);
  }

  /** A filter that rejects exactly position `i` cuts that position out. */
  lemma FilterRemovesOne<T(!new)>(s: seq<T>, p: T -> bool, i: int)
    requires 0 <= i < |s| && !p(s[i])
    requires forall j :: 0 <= j < |s| && j != i ==> p(s[j])
    ensures Filter(s, p) == s[..i] + s[i + 1..]
  {
    FilterKeepsPrefix(s, p, i);
    FilterKeepsSuffix(s, p, i + 1);
    SplitAt(s, i);
    FilterCut(s[..i], s[i], s[i + 1..], p);
  }

  lemma SplitAt<T>(s: seq<T>, i: int)
    requires 0 <= i < |s|
    ensures s == (s[..i] + [s[i]]) + s[i + 1..]
  {
  }

  /** A prefix whose every element passes is kept whole. */
  lemma FilterKeepsPrefix<T(!new)>(s: seq<T>, p: T -> bool, n: int)
    requires 0 <= n <= |s|
    requires forall j :: 0 <= j < n ==> p(s[j])
    ensures Filter(s[..n], p) == s[..n]
  {
    var t := s[..n];
    forall j | 0 <= j < |t| ensures p(t[j]) {
      assert t[j] == s[j];
    }
    FilterKeepsAll(t, p);
  }

  /** A suffix whose every element passes is kept whole. */
  lemma FilterKeepsSuffix<T(!new)>(s: seq<T>, p: T -> bool, n: int)
    requires 0 <= n <= |s|
    requires forall j :: n <= j < |s| ==> p(s[j])
    ensures Filter(s[n..], p) == s[n..]
  {
    var t := s[n..];
    forall j | 0 <= j < |t| ensures p(t[j]) {
      assert t[j] == s[n + j];
    }
    FilterKeepsAll(t, p);
  }

  lemma FilterSingle<T(!new)>(x: T, p: T -> bool)
    ensures Filter([x], p) == if p(x) then [x] else []
  {
    assert [x][1..] == [];
  }

  lemma FilterCut<T(!new)>(before: seq<T>, x: T, after: seq<T>, p: T -> bool)
    requires Filter(before, p) == before && Filter(after, p) == after
    requires !p(x)
    ensures Filter((before + [x]) + after, p) == before + after
  {
    calc {
      Filter((before + [x]) + after, p);
      { FilterJoin(before, x, after, p); }
      Filter(before, p) + Filter([x], p) + Filter(after, p);
      { FilterSingle(x, p); }
      before + [] + after;
      { assert before + [] == before; }
      before + after;
    }
  }

  lemma FilterJoin<T(!new)>(before: seq<T>, x: T, after: seq<T>, p: T -> bool)
    ensures Filter((before + [x]) + after, p) == Filter(before, p) + Filter([x], p) + Filter(after, p)
  {
    FilterConcat(before + [x], after, p);
    FilterConcat(before, [x], p);
  }

  /** Two filters that agree on every element of `s` give the same result. */
  lemma {:induction false} FilterCongruent<T(!new)>(s: seq<T>, p: T -> bool, q: T -> bool)
    requires forall i :: 0 <= i < |s| ==> p(s[i]) == q(s[i])
    ensures Filter(s, p) == Filter(s, q)
  {
    if |s| > 0 {
      FilterCongruent(s[1..], p, q);
    }
  }

  /** Filtering twice is filtering once by the conjunction. */
  lemma {:induction false} FilterFilter<T(!new)>(s: seq<T>, p: T -> bool, q: T -> bool, pq: T -> bool)
    requires forall x :: pq(x) == (p(x) && q(x))
    ensures Filter(Filter(s, p), q) == Filter(s, pq)
  {
    if |s| > 0 {
      FilterFilter(s[1..], p, q, pq);
      FilterConcat(if p(s[0]) then [s[0]] else [], Filter(s[1..], p), q);
    }
  }

  /** The indices below `n` that `keep` selects, ascending. */
  function Positions(n: nat, keep: int -> bool): (r: seq<int>)
    ensures forall k :: 0 <= k < |r| ==> 0 <= r[k] < n && keep(r[k])
    ensures forall k, l :: 0 <= k < l < |r| ==> r[k] < r[l]
    ensures forall i :: 0 <= i < n && keep(i) ==> i in r
  {
    if n == 0 then [] else Positions(n - 1, keep) + (if keep(n - 1) then [n - 1] else [])
  }

  /** Selection by indices depends only on the indices below `n`. */
  lemma {:induction false} PositionsCongruent(n: nat, a: int -> bool, b: int -> bool)
    requires forall i :: 0 <= i < n ==> a(i) == b(i)
    ensures Positions(n, a) == Positions(n, b)
  {
    if n > 0 {
      PositionsCongruent(n - 1, a, b);
    }
  }

  /** The indices of `s` whose elements satisfy `p`. */
  function PassesAt<T>(s: seq<T>, p: T -> bool): int -> bool
  {
    (i: int) => 0 <= i < |s| && p(s[i])
  }

  /** `r` is `f` of the elements of `s` at the indices `keep` selects, in
      index order, one entry per index. */
  ghost predicate PicksMapped<T, U>(r: seq<U>, s: seq<T>, keep: int -> bool, f: T -> U)
  {
    var idx := Positions(|s|, keep);
    |r| == |idx| && forall k :: 0 <= k < |r| ==> 0 <= idx[k] < |s| && r[k] == f(s[idx[k]])
  }

  /** `r` is the elements of `s` at the indices `keep` selects, in index
      order. */
  ghost predicate Picks<T>(r: seq<T>, s: seq<T>, keep: int -> bool)
  {
    var idx := Positions(|s|, keep);
    |r| == |idx| && forall k :: 0 <= k < |r| ==> 0 <= idx[k] < |s| && r[k] == s[idx[k]]
  }

  /** `r` is the elements of `s` satisfying `p`, in their order in `s` and
      with their repetitions. */
  ghost predicate KeepsInOrder<T>(r: seq<T>, s: seq<T>, p: T -> bool)
  {
    Picks(r, s, PassesAt(s, p))
  }

  /** `Filter` keeps exactly the passing elements, in order. */
  lemma {:induction false} FilterInOrder<T(!new)>(s: seq<T>, p: T -> bool)
    ensures KeepsInOrder(Filter(s, p), s, p)
  {
    if |s| > 0 {
      var prefix, x := s[..|s| - 1], s[|s| - 1];
      FilterInOrder(prefix, p);
      assert s == prefix + [x];
      FilterSnoc(prefix, x, p);
      forall i | 0 <= i < |prefix| ensures PassesAt(prefix, p)(i) == PassesAt(s, p)(i) {
        assert prefix[i] == s[i];
      }
      PositionsCongruent(|prefix|, PassesAt(prefix, p), PassesAt(s, p));
      var idx, idx' := Positions(|s|, PassesAt(s, p)), Positions(|prefix|, PassesAt(prefix, p));
      assert idx == idx' + (if p(x) then [|prefix|] else []);
      var r, r' := Filter(s, p), Filter(prefix, p);
      forall k | 0 <= k < |r| ensures 0 <= idx[k] < |s| && r[k] == s[idx[k]] {
        if k < |r'| {
          assert r[k] == r'[k] && idx[k] == idx'[k];
          assert prefix[idx'[k]] == s[idx'[k]];
        } else {
          assert r[k] == x && idx[k] == |prefix|;
        }
      }
    }
  }

  /** Mapping after filtering applies `f` to the passing elements, in order. */
  lemma MapFilterInOrder<T(!new), U>(s: seq<T>, p: T -> bool, f: T -> U)
    ensures PicksMapped(Map(Filter(s, p), f), s, PassesAt(s, p), f)
  {
    FilterInOrder(s, p);
  }

  /** Membership in a filtered-then-mapped sequence, both ways. */
  lemma MapFilterMembers<T(!new), U>(s: seq<T>, p: T -> bool, f: T -> U)
    ensures forall i :: 0 <= i < |s| && p(s[i]) ==> f(s[i]) in Map(Filter(s, p), f)
    ensures forall y :: y in Map(Filter(s, p), f) ==> exists x :: x in s && p(x) && y == f(x)
  {
    var kept := Filter(s, p);
    assert forall i :: 0 <= i < |s| && p(s[i]) ==> s[i] in kept;
  }

  /** Two strictly increasing sequences with the same elements are equal. */
  lemma {:induction false} IncreasingSameElements(x: seq<int>, y: seq<int>)
    requires forall i, j :: 0 <= i < j < |x| ==> x[i] < x[j]
    requires forall i, j :: 0 <= i < j < |y| ==> y[i] < y[j]
    requires forall v :: v in x <==> v in y
    ensures x == y
    decreases |x|
  {
    if |x| > 0 {
      assert x[0] in x;
    }
    if |y| > 0 {
      assert y[0] in y;
    }
    if |x| > 0 && |y| > 0 {
      var k :| 0 <= k < |y| && y[k] == x[0];
      var m :| 0 <= m < |x| && x[m] == y[0];
      assert x[0] <= x[m] && y[0] <= y[k];
      var x', y' := x[1..], y[1..];
      forall v ensures v in x' <==> v in y' {
        if v in x' {
          assert v in x && v != x[0];
        }
        if v in y' {
          assert v in y && v != y[0];
        }
      }
      IncreasingSameElements(x', y');
      assert x == [x[0]] + x' && y == [y[0]] + y';
    }
  }

  /** Permutations have the same elements. */
  lemma SameElements<T>(a: seq<T>, b: seq<T>)
    requires multiset(a) == multiset(b)
    ensures forall x :: x in a <==> x in b
  {
    forall x ensures x in a <==> x in b {
      assert x in a <==> x in multiset(a);
      assert x in b <==> x in multiset(b);
    }
  }

  /** `Count` does not depend on the order of the elements. */
  lemma {:induction false} CountPermutation<T(!new)>(a: seq<T>, b: seq<T>, p: T -> bool)
    requires multiset(a) == multiset(b)
    decreases |a|
    ensures Count(a, p) == Count(b, p)
  {
    if |a| == 0 {
      assert |b| == |multiset(b)| == 0;
    } else {
      var x := a[0];
      assert x in multiset(b);
      var j :| 0 <= j < |b| && b[j] == x;
      var b' := b[..j] + b[j + 1..];
      assert b == b[..j] + [x] + b[j + 1..];
      assert a == [x] + a[1..];
      assert multiset(a[1..]) == multiset(b') by {
        calc {
          multiset(a[1..]) + multiset{x};
          multiset(a);
          multiset(b);
          multiset(b[..j]) + multiset{x} + multiset(b[j + 1..]);
          multiset(b') + multiset{x};
        }
        assert multiset(a[1..]) == (multiset(a[1..]) + multiset{x}) - multiset{x};
        assert multiset(b') == (multiset(b') + multiset{x}) - multiset{x};
      }
      CountPermutation(a[1..], b', p);
      FilterConcat([x], a[1..], p);
      FilterConcat(b[..j] + [x], b[j + 1..], p);
      FilterConcat(b[..j], [x], p);
      FilterConcat(b[..j], b[j + 1..], p);
    }
  }

  /** `Array.prototype.findIndex`: the first index whose element satisfies
      `p`, or -1 when there is none. */
  function FindIndex<T>(s: seq<T>, p: T -> bool): (r: int)
    ensures -1 <= r < |s|
    ensures r >= 0 ==> p(s[r]) && forall j :: 0 <= j < r ==> !p(s[j])
    ensures r == -1 <==> forall j :: 0 <= j < |s| ==> !p(s[j])
  {
    if |s| == 0 then -1
    else if p(s[0]) then 0
    else
      var k := FindIndex(s[1..], p);
      assert forall j :: 1 <= j < |s| ==> s[j] == s[1..][j - 1];
      if k == -1 then -1 else k + 1
  }

  /** Two sequences that agree before `k` and both match at `k` have the
      same first match. */
  lemma FindIndexSamePrefix<T>(s: seq<T>, t: seq<T>, p: T -> bool, k: int)
    requires 0 <= k < |s| && k < |t|
    requires FindIndex(s, p) == k && p(t[k])
    requires forall j :: 0 <= j < k ==> s[j] == t[j]
    ensures FindIndex(t, p) == k
  {
  }

  /** How many elements of `s` satisfy `p`. */
  function Count<T(!new)>(s: seq<T>, p: T -> bool): nat
  {
    |Filter(s, p)|
  }

  /** A weaker test counts at least as many elements. */
  lemma {:induction false} CountMonotone<T(!new)>(s: seq<T>, p: T -> bool, q: T -> bool)
    requires forall x :: p(x) ==> q(x)
    ensures Count(s, p) <= Count(s, q)
  {
    if |s| > 0 {
      CountMonotone(s[1..], p, q);
    }
  }

  /** `s` has no repeated element. */
  predicate Distinct<T(==)>(s: seq<T>)
  {
    forall i, j :: 0 <= i < j < |s| ==> s[i] != s[j]
  }

  /** `Array.prototype.map`. */
  function Map<T, U>(s: seq<T>, f: T -> U): (r: seq<U>)
    ensures |r| == |s|
    ensures forall i :: 0 <= i < |s| ==> r[i] == f(s[i])
    ensures forall x :: x in s ==> f(x) in r
    ensures forall y :: y in r ==> exists x :: x in s && y == f(x)
  {
    if |s| == 0 then [] else [f(s[0])] + Map(s[1..], f)
  }

  /** The elements of `s` back to front. */
  function Reverse<T>(s: seq<T>): (r: seq<T>)
    ensures |r| == |s|
    ensures forall i :: 0 <= i < |s| ==> r[i] == s[|s| - 1 - i]
  {
    if |s| == 0 then [] else Reverse(s[1..]) + [s[0]]
  }
}
