/** Small value types shared by the models. */
module Common {
  datatype Option<+T> = None | Some(value: T)

  datatype Result<+T, +E> = Ok(value: T) | Err(error: E)

  /** A subset of a finite set has at most as many elements. */
  lemma SubsetSize<T>(a: set<T>, b: set<T>)
    requires a <= b
    ensures |a| <= |b|
    ensures a != b ==> |a| < |b|
  {
    assert b == a + (b - a);
  }

  /** Each of ids is in exactly one of the two maps, and nothing else is in either. */
  ghost predicate Splits<K(!new), A, B>(ids: set<K>, a: map<K, A>, b: map<K, B>) {
    forall k :: (k in ids <==> k in a || k in b) && !(k in a && k in b)
  }

  lemma SplitsNext<K(!new), A, B>(ids: set<K>, a: map<K, A>, b: map<K, B>, k: K, x: A)
    requires Splits(ids, a, b) && k !in ids
    ensures Splits(ids + {k}, a[k := x], b) && |a[k := x]| == |a| + 1
  {
    assert a[k := x].Keys == a.Keys + {k};
    assert |a[k := x].Keys| == |a.Keys| + 1;
  }

  lemma SplitsElse<K(!new), A, B>(ids: set<K>, a: map<K, A>, b: map<K, B>, k: K, y: B)
    requires Splits(ids, a, b) && k !in ids
    ensures Splits(ids + {k}, a, b[k := y])
  {
  }

  lemma SameElements<T>(a: seq<T>, b: seq<T>)
    requires multiset(a) == multiset(b)
    ensures forall x | x in a :: x in b
    ensures forall x | x in b :: x in a
  {
    forall x | x in a ensures x in b {
      assert x in multiset(a) && x in multiset(b);
    }
    forall x | x in b ensures x in a {
      assert x in multiset(b) && x in multiset(a);
    }
  }

  /** Each element moves the state on; the first failure stops everything. */
  function Fold<S, X, E>(step: (S, X) -> Result<S, E>, s: S, xs: seq<X>): Result<S, E>
    decreases |xs|
  {
    if xs == [] then Ok(s)
    else
      var next := step(s, xs[0]);
      if next.Err? then next else Fold(step, next.value, xs[1..])
  }

  lemma {:induction false} FoldAppended<S, X, E>(step: (S, X) -> Result<S, E>, s: S, xs: seq<X>, ys: seq<X>)
    ensures Fold(step, s, xs + ys) == var mid := Fold(step, s, xs); if mid.Err? then mid else Fold(step, mid.value, ys)
    decreases |xs|
  {
    if xs == [] {
      assert xs + ys == ys;
    } else {
      assert (xs + ys)[1..] == xs[1..] + ys;
      var next := step(s, xs[0]);
      if next.Ok? {
        FoldAppended(step, next.value, xs[1..], ys);
      }
    }
  }

  function Map<X, Y>(f: X -> Y, xs: seq<X>): seq<Y> {
    if xs == [] then [] else Map(f, xs[..|xs| - 1]) + [f(xs[|xs| - 1])]
  }

  function FlatMap<X, Y>(f: X -> seq<Y>, xs: seq<X>): seq<Y> {
    if xs == [] then [] else FlatMap(f, xs[..|xs| - 1]) + f(xs[|xs| - 1])
  }

  lemma {:induction false} MapIn<X, Y>(f: X -> Y, xs: seq<X>, y: Y) returns (x: X)
    requires y in Map(f, xs)
    ensures x in xs && f(x) == y
  {
    var n := |xs| - 1;
    if f(xs[n]) == y {
      x := xs[n];
    } else {
      x := MapIn(f, xs[..n], y);
    }
  }

  lemma {:induction false} FlatMapIn<X, Y>(f: X -> seq<Y>, xs: seq<X>, y: Y) returns (x: X)
    requires y in FlatMap(f, xs)
    ensures x in xs && y in f(x)
  {
    var n := |xs| - 1;
    if y in f(xs[n]) {
      x := xs[n];
    } else {
      x := FlatMapIn(f, xs[..n], y);
    }
  }

  lemma {:induction false} MapAppended<X, Y>(f: X -> Y, xs: seq<X>, ys: seq<X>)
    ensures Map(f, xs + ys) == Map(f, xs) + Map(f, ys)
  {
    if ys == [] {
      assert xs + ys == xs;
    } else {
      var n := |ys| - 1;
      assert (xs + ys)[..|xs| + n] == xs + ys[..n];
      MapAppended(f, xs, ys[..n]);
    }
  }

  function Prefixed(p: string, r: Option<string>): Option<string> { if r.Some? then Some(p + r.value) else None }

  lemma PrefixedTwice(p: string, q: string, r: Option<string>)
    ensures Prefixed(p, Prefixed(q, r)) == Prefixed(p + q, r)
  {
    if r.Some? {
      assert p + (q + r.value) == p + q + r.value;
    }
  }

  lemma PrefixedNothing(r: Option<string>)
    ensures Prefixed([], r) == r
  {
    if r.Some? {
      assert [] + r.value == r.value;
    }
  }

  lemma {:induction false} FlatMapAppended<X, Y>(f: X -> seq<Y>, xs: seq<X>, ys: seq<X>)
    ensures FlatMap(f, xs + ys) == FlatMap(f, xs) + FlatMap(f, ys)
  {
    if ys == [] {
      assert xs + ys == xs;
    } else {
      var n := |ys| - 1;
      assert (xs + ys)[..|xs| + n] == xs + ys[..n];
      FlatMapAppended(f, xs, ys[..n]);
    }
  }

  lemma {:induction false} InFlatMap<X, Y>(f: X -> seq<Y>, xs: seq<X>, x: X, y: Y)
    requires x in xs && y in f(x)
    ensures y in FlatMap(f, xs)
  {
    var n := |xs| - 1;
    if y !in f(xs[n]) {
      assert xs == xs[..n] + [xs[n]];
      InFlatMap(f, xs[..n], x, y);
    }
  }
}
