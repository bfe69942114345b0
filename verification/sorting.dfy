/** A stable sort by an integer key, largest key first: the model of
    `Array.prototype.sort` with a comparator `(a, b) => key(b) - key(a)`.
    Sorting by the negated key gives the ascending order of
    `(a, b) => key(a) - key(b)`. */
module Sorting {

  /** Keys never increase along `s`. */
  predicate NonIncreasing<T>(s: seq<T>, key: T -> int)
  {
    forall i, j :: 0 <= i < j < |s| ==> key(s[i]) >= key(s[j])
  }

  /** The elements of `s` whose key is `q`, in order. */
  function WithKey<T>(s: seq<T>, key: T -> int, q: int): seq<T>
  {
    if |s| == 0 then [] else (if key(s[0]) == q then [s[0]] else []) + WithKey(s[1..], key, q)
  }

  lemma {:induction false} WithKeyConcat<T>(a: seq<T>, b: seq<T>, key: T -> int, q: int)
    ensures WithKey(a + b, key, q) == WithKey(a, key, q) + WithKey(b, key, q)
  {
    if |a| == 0 {
      assert a + b == b;
    } else {
      assert (a + b)[1..] == a[1..] + b;
      WithKeyConcat(a[1..], b, key, q);
    }
  }

  lemma {:induction false} WithKeyNone<T>(s: seq<T>, key: T -> int, q: int)
    requires forall i :: 0 <= i < |s| ==> key(s[i]) != q
    ensures WithKey(s, key, q) == []
  {
    if |s| > 0 {
      WithKeyNone(s[1..], key, q);
    }
  }

  lemma WithKeySingle<T>(x: T, key: T -> int, q: int)
    ensures WithKey([x], key, q) == if key(x) == q then [x] else []
  {
    assert [x][1..] == [];
  }

  /** Places `x` after every element whose key is at least its own. */
  function Insert<T>(x: T, s: seq<T>, key: T -> int): seq<T>
  {
    if |s| == 0 then [x]
    else if key(s[0]) >= key(x) then [s[0]] + Insert(x, s[1..], key)
    else [x] + s
  }

  lemma {:induction false} InsertPermutes<T>(x: T, s: seq<T>, key: T -> int)
    ensures multiset(Insert(x, s, key)) == multiset(s) + multiset{x}
  {
    if |s| > 0 {
      assert s == [s[0]] + s[1..];
      if key(s[0]) >= key(x) {
        InsertPermutes(x, s[1..], key);
      }
    }
  }

  /** Inserting below a bound stays below it. */
  lemma {:induction false} InsertBounded<T>(x: T, s: seq<T>, key: T -> int, b: int)
    requires forall i :: 0 <= i < |s| ==> key(s[i]) <= b
    requires key(x) <= b
    ensures |Insert(x, s, key)| == |s| + 1
    ensures forall i :: 0 <= i < |Insert(x, s, key)| ==> key(Insert(x, s, key)[i]) <= b
  {
    if |s| > 0 && key(s[0]) >= key(x) {
      InsertBounded(x, s[1..], key, b);
    }
  }

  lemma {:induction false} InsertSorted<T>(x: T, s: seq<T>, key: T -> int)
    requires NonIncreasing(s, key)
    ensures NonIncreasing(Insert(x, s, key), key)
  {
    if |s| > 0 && key(s[0]) >= key(x) {
      var tail := Insert(x, s[1..], key);
      InsertSorted(x, s[1..], key);
      InsertBounded(x, s[1..], key, key(s[0]));
      var r := [s[0]] + tail;
      assert r == Insert(x, s, key);
      forall i, j | 0 <= i < j < |r| ensures key(r[i]) >= key(r[j]) {
        assert r[j] == tail[j - 1];
        if i > 0 {
          assert r[i] == tail[i - 1];
        }
      }
    }
  }

  /** Inserting keeps, for every key, the elements of that key in their
      order, with `x` after those already present. */
  lemma {:induction false} InsertStable<T>(x: T, s: seq<T>, key: T -> int, q: int)
    requires NonIncreasing(s, key)
    ensures WithKey(Insert(x, s, key), key, q) == WithKey(s, key, q) + (if key(x) == q then [x] else [])
  {
    if |s| == 0 {
      WithKeySingle(x, key, q);
    } else if key(s[0]) >= key(x) {
      InsertStable(x, s[1..], key, q);
      WithKeyConcat([s[0]], Insert(x, s[1..], key), key, q);
      WithKeySingle(s[0], key, q);
      assert s == [s[0]] + s[1..];
      WithKeyConcat([s[0]], s[1..], key, q);
    } else {
      WithKeyConcat([x], s, key, q);
      WithKeySingle(x, key, q);
      if key(x) == q {
        WithKeyNone(s, key, q);
      }
    }
  }

  /** An insertion sort, largest key first, that keeps equal keys in their
      input order. */
  function SortDesc<T>(s: seq<T>, key: T -> int): (r: seq<T>)
    ensures NonIncreasing(r, key)
    ensures multiset(r) == multiset(s)
    ensures |r| == |s|
  {
    if |s| == 0 then []
    else
      var prefix, x := s[..|s| - 1], s[|s| - 1];
      var sorted := SortDesc(prefix, key);
      var r := Insert(x, sorted, key);
      InsertSorted(x, sorted, key);
      InsertPermutes(x, sorted, key);
      assert s == prefix + [x];
      assert multiset(s) == multiset(prefix) + multiset{x};
      assert |r| == |multiset(r)| == |multiset(s)| == |s|;
      r
  }

  /** The sort is stable: for every key, the elements with that key come out
      in the order they went in. */
  lemma {:induction false} SortStable<T>(s: seq<T>, key: T -> int, q: int)
    ensures WithKey(SortDesc(s, key), key, q) == WithKey(s, key, q)
  {
    if |s| > 0 {
      var prefix, x := s[..|s| - 1], s[|s| - 1];
      assert SortDesc(s, key) == Insert(x, SortDesc(prefix, key), key);
      SortStable(prefix, key, q);
      InsertStable(x, SortDesc(prefix, key), key, q);
      assert s == prefix + [x];
      WithKeyConcat(prefix, [x], key, q);
      WithKeySingle(x, key, q);
    }
  }
}
