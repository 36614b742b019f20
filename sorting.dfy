/** Python's `list.sort(key=..., reverse=True)` and `sorted(..., reverse=True)`
    as the report builder uses them: a stable sort into non-increasing key
    order, where records with equal keys keep their original order. Every
    key the scripts use is an integer, a string, or a pair of the two, so one
    key type covers them all. */
module Sorting {
  import opened Common

  /** Python's `a < b` on strings: lexicographic by code point, a proper
      prefix first. */
  predicate StrLess(a: string, b: string) {
    if |a| == 0 then |b| > 0
    else if |b| == 0 then false
    else if a[0] != b[0] then a[0] < b[0]
    else StrLess(a[1..], b[1..])
  }

  lemma {:induction false} StrLessIrreflexive(a: string)
    ensures !StrLess(a, a)
  {
    if |a| > 0 {
      StrLessIrreflexive(a[1..]);
    }
  }

  lemma {:induction false} StrLessTransitive(a: string, b: string, c: string)
    requires StrLess(a, b) && StrLess(b, c)
    ensures StrLess(a, c)
  {
    if |a| > 0 && |b| > 0 && |c| > 0 && a[0] == b[0] == c[0] {
      StrLessTransitive(a[1..], b[1..], c[1..]);
    }
  }

  lemma {:induction false} StrLessTotal(a: string, b: string)
    ensures a == b || StrLess(a, b) || StrLess(b, a)
  {
    if |a| > 0 && |b| > 0 && a[0] == b[0] {
      StrLessTotal(a[1..], b[1..]);
      if a[1..] == b[1..] {
        assert a == [a[0]] + a[1..] && b == [b[0]] + b[1..];
      }
    }
  }

  /** A sort key: the tuple `(primary, secondary)`; a string key `s` is
      `(0, s)` and an integer key `n` is `(n, "")`. */
  datatype SortKey = SortKey(primary: int, secondary: string)

  /** Python's `<` on the tuples. */
  predicate KeyLess(x: SortKey, y: SortKey) {
    x.primary < y.primary || (x.primary == y.primary && StrLess(x.secondary, y.secondary))
  }

  /** `KeyLess` is a strict total order. */
  lemma KeyLessOrder(x: SortKey, y: SortKey, z: SortKey)
    ensures !KeyLess(x, x)
    ensures KeyLess(x, y) && KeyLess(y, z) ==> KeyLess(x, z)
    ensures x == y || KeyLess(x, y) || KeyLess(y, x)
  {
    StrLessIrreflexive(x.secondary);
    if KeyLess(x, y) && KeyLess(y, z) && x.primary == y.primary == z.primary {
      StrLessTransitive(x.secondary, y.secondary, z.secondary);
    }
    StrLessTotal(x.secondary, y.secondary);
  }

  /** Keys never increase from left to right. */
  ghost predicate Descending<T>(s: seq<T>, key: T -> SortKey) {
    forall i, j :: 0 <= i < j < |s| ==> !KeyLess(key(s[i]), key(s[j]))
  }

  /** Puts `x` into the descending `sorted` after every element whose key is
      not smaller than its own. */
  function Insert<T>(x: T, sorted: seq<T>, key: T -> SortKey): (r: seq<T>)
    ensures |r| == |sorted| + 1
  {
    if sorted == [] then [x]
    else if KeyLess(key(sorted[0]), key(x)) then [x] + sorted
    else [sorted[0]] + Insert(x, sorted[1..], key)
  }

  /** `sorted(s, key=key, reverse=True)` */
  function SortDesc<T>(s: seq<T>, key: T -> SortKey): (r: seq<T>)
    ensures |r| == |s|
  {
    if s == [] then [] else Insert(s[|s| - 1], SortDesc(s[..|s| - 1], key), key)
  }

  /** The elements of `s` whose key is `k`, in order. */
  function WithKey<T>(s: seq<T>, key: T -> SortKey, k: SortKey): seq<T> {
    if s == [] then []
    else WithKey(s[..|s| - 1], key, k) + (if key(s[|s| - 1]) == k then [s[|s| - 1]] else [])
  }

  lemma {:induction false} WithKeyConcat<T>(a: seq<T>, b: seq<T>, key: T -> SortKey, k: SortKey)
    ensures WithKey(a + b, key, k) == WithKey(a, key, k) + WithKey(b, key, k)
    decreases |b|
  {
    if b != [] {
      var init := b[..|b| - 1];
      assert (a + b)[..|a + b| - 1] == a + init;
      WithKeyConcat(a, init, key, k);
    } else {
      assert a + b == a;
    }
  }

  lemma {:induction false} WithKeyNone<T>(s: seq<T>, key: T -> SortKey, k: SortKey)
    requires forall i :: 0 <= i < |s| ==> key(s[i]) != k
    ensures WithKey(s, key, k) == []
  {
    if s != [] {
      WithKeyNone(s[..|s| - 1], key, k);
    }
  }

  /** Every element of `Insert(x, sorted)` is `x` or an element of `sorted`. */
  lemma {:induction false} InsertPermutation<T>(x: T, sorted: seq<T>, key: T -> SortKey)
    ensures multiset(Insert(x, sorted, key)) == multiset(sorted) + multiset{x}
  {
    if sorted != [] && !KeyLess(key(sorted[0]), key(x)) {
      InsertPermutation(x, sorted[1..], key);
      assert sorted == [sorted[0]] + sorted[1..];
    }
  }

  lemma DescendingTail<T>(s: seq<T>, key: T -> SortKey)
    requires s != [] && Descending(s, key)
    ensures Descending(s[1..], key)
    ensures forall i :: 0 <= i < |s| ==> !KeyLess(key(s[0]), key(s[i]))
  {
    forall i, j | 0 <= i < j < |s[1..]|
      ensures !KeyLess(key(s[1..][i]), key(s[1..][j]))
    {
      assert s[1..][i] == s[i + 1] && s[1..][j] == s[j + 1];
    }
    KeyLessOrder(key(s[0]), key(s[0]), key(s[0]));
  }

  /** No element of `s` has a key above `top`. */
  ghost predicate NotAbove<T>(s: seq<T>, key: T -> SortKey, top: SortKey) {
    forall i :: 0 <= i < |s| ==> !KeyLess(top, key(s[i]))
  }

  /** A descending sequence stays descending with a first element whose
      key is above none of its own. */
  lemma ConsDescending<T>(y: T, t: seq<T>, key: T -> SortKey)
    requires Descending(t, key) && NotAbove(t, key, key(y))
    ensures Descending([y] + t, key)
  {
    var r := [y] + t;
    forall i, j | 0 <= i < j < |r|
      ensures !KeyLess(key(r[i]), key(r[j]))
    {
      assert r[j] == t[j - 1];
      if i > 0 {
        assert r[i] == t[i - 1];
      }
    }
  }

  /** Inserting an element whose key is not above `top` keeps every key
      not above `top`. */
  lemma {:induction false} InsertNotAbove<T>(x: T, s: seq<T>, key: T -> SortKey, top: SortKey)
    requires NotAbove(s, key, top) && !KeyLess(top, key(x))
    ensures NotAbove(Insert(x, s, key), key, top)
  {
    if s != [] && !KeyLess(key(s[0]), key(x)) {
      assert NotAbove(s[1..], key, top) by {
        forall i | 0 <= i < |s[1..]|
          ensures !KeyLess(top, key(s[1..][i]))
        {
          assert s[1..][i] == s[i + 1];
        }
      }
      InsertNotAbove(x, s[1..], key, top);
      var r := Insert(x, s, key);
      forall i | 0 <= i < |r|
        ensures !KeyLess(top, key(r[i]))
      {
        if i > 0 {
          assert r[i] == Insert(x, s[1..], key)[i - 1];
        }
      }
    } else if s != [] {
      ConsNotAbove(x, s, key, top);
    }
  }

  lemma ConsNotAbove<T>(y: T, t: seq<T>, key: T -> SortKey, top: SortKey)
    requires NotAbove(t, key, top) && !KeyLess(top, key(y))
    ensures NotAbove([y] + t, key, top)
  {
    var r := [y] + t;
    forall i | 0 < i < |r|
      ensures !KeyLess(top, key(r[i]))
    {
      assert r[i] == t[i - 1];
    }
  }

  lemma {:induction false} InsertDescending<T>(x: T, sorted: seq<T>, key: T -> SortKey)
    requires Descending(sorted, key)
    ensures Descending(Insert(x, sorted, key), key)
  {
    if sorted == [] {
    } else if KeyLess(key(sorted[0]), key(x)) {
      DescendingTail(sorted, key);
      forall i | 0 <= i < |sorted|
        ensures !KeyLess(key(x), key(sorted[i]))
      {
        KeyLessOrder(key(sorted[i]), key(sorted[0]), key(x));
        KeyLessOrder(key(x), key(sorted[i]), key(x));
      }
      ConsDescending(x, sorted, key);
    } else {
      var rest := sorted[1..];
      DescendingTail(sorted, key);
      assert NotAbove(rest, key, key(sorted[0])) by {
        forall i | 0 <= i < |rest|
          ensures !KeyLess(key(sorted[0]), key(rest[i]))
        {
          assert rest[i] == sorted[i + 1];
        }
      }
      InsertDescending(x, rest, key);
      InsertNotAbove(x, rest, key, key(sorted[0]));
      ConsDescending(sorted[0], Insert(x, rest, key), key);
    }
  }

  /** Inserting `x` adds it after every element with the same key. */
  lemma {:induction false} InsertStable<T>(x: T, sorted: seq<T>, key: T -> SortKey, k: SortKey)
    requires Descending(sorted, key)
    ensures WithKey(Insert(x, sorted, key), key, k)
         == WithKey(sorted, key, k) + (if key(x) == k then [x] else [])
  {
    var r := Insert(x, sorted, key);
    if sorted == [] {
      assert r == [x];
      assert [x][..0] == [];
    } else if KeyLess(key(sorted[0]), key(x)) {
      assert r == [x] + sorted;
      WithKeyConcat([x], sorted, key, k);
      assert [x][..0] == [];
      if key(x) == k {
        forall i | 0 <= i < |sorted|
          ensures key(sorted[i]) != k
        {
          KeyLessOrder(key(sorted[i]), key(sorted[0]), key(x));
          KeyLessOrder(key(sorted[i]), key(x), key(x));
        }
        WithKeyNone(sorted, key, k);
      }
    } else {
      var rest := sorted[1..];
      DescendingTail(sorted, key);
      InsertStable(x, rest, key, k);
      var tail := Insert(x, rest, key);
      assert r == [sorted[0]] + tail;
      assert sorted == [sorted[0]] + rest;
      WithKeyConcat([sorted[0]], tail, key, k);
      WithKeyConcat([sorted[0]], rest, key, k);
    }
  }

  /** `SortDesc` is a stable sort into non-increasing key order: it orders
      by key, keeps every element exactly as often as it occurs, and keeps
      the original relative order of elements with equal keys. */
  lemma {:induction false} SortDescProperties<T>(s: seq<T>, key: T -> SortKey)
    ensures Descending(SortDesc(s, key), key)
    ensures multiset(SortDesc(s, key)) == multiset(s)
    ensures forall k :: WithKey(SortDesc(s, key), key, k) == WithKey(s, key, k)
  {
    if s != [] {
      var init, last := s[..|s| - 1], s[|s| - 1];
      assert s == init + [last];
      SortDescProperties(init, key);
      InsertDescending(last, SortDesc(init, key), key);
      InsertPermutation(last, SortDesc(init, key), key);
      forall k
        ensures WithKey(SortDesc(s, key), key, k) == WithKey(s, key, k)
      {
        InsertStable(last, SortDesc(init, key), key, k);
      }
    }
  }

  /** Sorting an already descending sequence changes nothing. */
  lemma {:induction false} SortDescOfDescending<T>(s: seq<T>, key: T -> SortKey)
    requires Descending(s, key)
    ensures SortDesc(s, key) == s
  {
    if s != [] {
      var init, last := s[..|s| - 1], s[|s| - 1];
      assert Descending(init, key);
      SortDescOfDescending(init, key);
      InsertAtEnd(last, init, key);
      assert s == init + [last];
    }
  }

  lemma {:induction false} InsertAtEnd<T>(x: T, sorted: seq<T>, key: T -> SortKey)
    requires forall i :: 0 <= i < |sorted| ==> !KeyLess(key(sorted[i]), key(x))
    ensures Insert(x, sorted, key) == sorted + [x]
  {
    if sorted != [] {
      InsertAtEnd(x, sorted[1..], key);
      assert sorted == [sorted[0]] + sorted[1..];
    }
  }

  lemma {:induction false} InsertSum<T>(x: T, sorted: seq<T>, key: T -> SortKey, w: T -> nat)
    ensures Sum(Insert(x, sorted, key), w) == w(x) + Sum(sorted, w)
  {
    if sorted != [] && !KeyLess(key(sorted[0]), key(x)) {
      InsertSum(x, sorted[1..], key, w);
      assert Insert(x, sorted, key)[1..] == Insert(x, sorted[1..], key);
    } else if sorted != [] {
      assert ([x] + sorted)[1..] == sorted;
    }
  }

  /** Sorting changes no total: the weights of the sorted sequence sum to
      those of the input. */
  lemma {:induction false} SortDescSum<T>(s: seq<T>, key: T -> SortKey, w: T -> nat)
    ensures Sum(SortDesc(s, key), w) == Sum(s, w)
  {
    if s != [] {
      var init, last := s[..|s| - 1], s[|s| - 1];
      assert s == init + [last];
      SortDescSum(init, key, w);
      InsertSum(last, SortDesc(init, key), key, w);
      SumSnoc(init, last, w);
    }
  }
}
