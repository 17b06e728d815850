/** The list operations the analyzer applies to its ArrayLists: keeping the
    elements that pass a test, and List.sort under a key comparator that puts
    null keys last. List.sort is a stable sort; it is defined here as
    insertion sort, which is stable, and proved sorted, a permutation and
    stable. */
module Lists {
  import opened Base
  import opened Text

  /** `stream.filter(keep)`: the elements that pass, in their original order. */
  function Filter<T>(xs: seq<T>, keep: T -> bool): (r: seq<T>)
    ensures |r| <= |xs|
  {
    if xs == [] then [] else (if keep(xs[0]) then [xs[0]] else []) + Filter(xs[1..], keep)
  }

  /** An element is kept exactly when it occurs in the input and passes. */
  lemma {:induction false} FilterMembers<T>(xs: seq<T>, keep: T -> bool, x: T)
    ensures x in Filter(xs, keep) <==> x in xs && keep(x)
  {
    if xs != [] {
      FilterMembers(xs[1..], keep, x);
      assert xs == [xs[0]] + xs[1..];
    }
  }

  /** Filtering distributes over concatenation. */
  lemma {:induction false} FilterConcat<T>(a: seq<T>, b: seq<T>, keep: T -> bool)
    ensures Filter(a + b, keep) == Filter(a, keep) + Filter(b, keep)
  {
    if a == [] {
      assert a + b == b;
    } else {
      var head := if keep(a[0]) then [a[0]] else [];
      var ab := a + b;
      assert ab[0] == a[0] && ab[1..] == a[1..] + b;
      assert Filter(ab, keep) == head + Filter(a[1..] + b, keep);
      FilterConcat(a[1..], b, keep);
      assert Filter(a, keep) == head + Filter(a[1..], keep);
    }
  }

  /** `ys` pairs up, index by index, with the elements of `xs` that pass `keep`. */
  predicate PairsWithKept<S, R>(xs: seq<S>, keep: S -> bool, ys: seq<R>, rel: (S, R) -> bool)
  {
    var kept := Filter(xs, keep);
    |ys| == |kept| && forall i :: 0 <= i < |ys| ==> rel(kept[i], ys[i])
  }

  /** One more element, with one more partner exactly when it passes. */
  lemma PairsWithKeptStep<S, R>(xs: seq<S>, keep: S -> bool, ys: seq<R>, rel: (S, R) -> bool, x: S, added: seq<R>)
    requires PairsWithKept(xs, keep, ys, rel)
    requires if keep(x) then |added| == 1 && rel(x, added[0]) else added == []
    ensures PairsWithKept(xs + [x], keep, ys + added, rel)
  {
    FilterConcat(xs, [x], keep);
    assert [x][1..] == [];
    assert Filter([x], keep) == if keep(x) then [x] else [];
  }

  /** A weaker test keeps at least as many elements. */
  lemma {:induction false} FilterImplies<T>(xs: seq<T>, p: T -> bool, q: T -> bool)
    requires forall x :: p(x) ==> q(x)
    ensures |Filter(xs, p)| <= |Filter(xs, q)|
  {
    if xs != [] {
      FilterImplies(xs[1..], p, q);
    }
  }

  /** Comparator.nullsLast(String::compareTo): present keys in lexicographic
      order, then every null key. */
  predicate KeyLe(a: Option<string>, b: Option<string>)
  {
    match a
    case None => b.None?
    case Some(x) => b.None? || LexLe(x, b.value)
  }

  lemma KeyLeTotal(a: Option<string>, b: Option<string>)
    ensures KeyLe(a, b) || KeyLe(b, a)
  {
    if a.Some? && b.Some? {
      LexLeTotal(a.value, b.value);
    }
  }

  lemma KeyLeReflexive(a: Option<string>)
    ensures KeyLe(a, a)
  {
    if a.Some? {
      LexLeTotal(a.value, a.value);
    }
  }

  lemma KeyLeTransitive(a: Option<string>, b: Option<string>, c: Option<string>)
    requires KeyLe(a, b) && KeyLe(b, c)
    ensures KeyLe(a, c)
  {
    if a.Some? && b.Some? && c.Some? {
      LexLeTransitive(a.value, b.value, c.value);
    }
  }

  /** Each element's key is at most the next one's. */
  predicate SortedBy<T>(xs: seq<T>, key: T -> Option<string>)
  {
    forall i :: 0 < i < |xs| ==> KeyLe(key(xs[i - 1]), key(xs[i]))
  }

  /** Places `x` before the first element whose key is not below its own. */
  function Insert<T>(x: T, xs: seq<T>, key: T -> Option<string>): (r: seq<T>)
    ensures |r| == |xs| + 1
  {
    if xs == [] || KeyLe(key(x), key(xs[0])) then [x] + xs
    else [xs[0]] + Insert(x, xs[1..], key)
  }

  /** `list.sort(Comparator.comparing(key, nullsLast(...)))`. */
  function SortBy<T>(xs: seq<T>, key: T -> Option<string>): (r: seq<T>)
    ensures |r| == |xs|
  {
    if xs == [] then [] else Insert(xs[0], SortBy(xs[1..], key), key)
  }

  /** The elements whose key is `k`, in order. */
  function WithKey<T>(xs: seq<T>, key: T -> Option<string>, k: Option<string>): seq<T>
  {
    if xs == [] then [] else (if key(xs[0]) == k then [xs[0]] else []) + WithKey(xs[1..], key, k)
  }

  lemma {:induction false} InsertSorted<T>(x: T, xs: seq<T>, key: T -> Option<string>)
    requires SortedBy(xs, key)
    ensures SortedBy(Insert(x, xs, key), key)
    ensures xs != [] ==> Insert(x, xs, key)[0] == x || Insert(x, xs, key)[0] == xs[0]
  {
    if xs != [] && !KeyLe(key(x), key(xs[0])) {
      KeyLeTotal(key(x), key(xs[0]));
      InsertSorted(x, xs[1..], key);
    }
  }

  /** The sorted list is ordered by key. */
  lemma {:induction false} SortBySorted<T>(xs: seq<T>, key: T -> Option<string>)
    ensures SortedBy(SortBy(xs, key), key)
  {
    if xs != [] {
      SortBySorted(xs[1..], key);
      InsertSorted(xs[0], SortBy(xs[1..], key), key);
    }
  }

  lemma {:induction false} InsertPermutes<T>(x: T, xs: seq<T>, key: T -> Option<string>)
    ensures multiset(Insert(x, xs, key)) == multiset{x} + multiset(xs)
  {
    if xs != [] && !KeyLe(key(x), key(xs[0])) {
      InsertPermutes(x, xs[1..], key);
      assert xs == [xs[0]] + xs[1..];
    }
  }

  /** The sorted list holds the same elements, as often. */
  lemma {:induction false} SortByPermutes<T>(xs: seq<T>, key: T -> Option<string>)
    ensures multiset(SortBy(xs, key)) == multiset(xs)
  {
    if xs != [] {
      SortByPermutes(xs[1..], key);
      InsertPermutes(xs[0], SortBy(xs[1..], key), key);
      assert xs == [xs[0]] + xs[1..];
    }
  }

  /** Sorting neither adds nor drops an element. */
  lemma SortByMembers<T>(xs: seq<T>, key: T -> Option<string>)
    ensures forall x :: x in SortBy(xs, key) <==> x in xs
  {
    SortByPermutes(xs, key);
    forall x
      ensures x in SortBy(xs, key) <==> x in xs
    {
      assert x in SortBy(xs, key) <==> x in multiset(SortBy(xs, key));
    }
  }

  lemma {:induction false} InsertStable<T>(x: T, xs: seq<T>, key: T -> Option<string>, k: Option<string>)
    ensures WithKey(Insert(x, xs, key), key, k)
         == (if key(x) == k then [x] else []) + WithKey(xs, key, k)
  {
    if xs != [] && !KeyLe(key(x), key(xs[0])) {
      KeyLeReflexive(key(x));
      InsertStable(x, xs[1..], key, k);
      assert Insert(x, xs, key)[1..] == Insert(x, xs[1..], key);
    }
  }

  /** Stability: the elements sharing any one key keep their input order. */
  lemma {:induction false} SortByStable<T>(xs: seq<T>, key: T -> Option<string>, k: Option<string>)
    ensures WithKey(SortBy(xs, key), key, k) == WithKey(xs, key, k)
  {
    if xs != [] {
      SortByStable(xs[1..], key, k);
      InsertStable(xs[0], SortBy(xs[1..], key), key, k);
    }
  }
}
