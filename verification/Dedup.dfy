/** Keeping the first element for each key. */
module Dedup {
  function Keys<X(==), K(==)>(key: X -> K, xs: seq<X>): set<K> { set x | x in xs :: key(x) }

  function FirstBy<X(==), K(==)>(key: X -> K, xs: seq<X>): seq<X> {
    if xs == [] then []
    else
      var before, last := FirstBy(key, xs[..|xs| - 1]), xs[|xs| - 1];
      if key(last) in Keys(key, xs[..|xs| - 1]) then before else before + [last]
  }

  predicate DistinctBy<X, K(==)>(key: X -> K, xs: seq<X>) {
    forall i, j | 0 <= i < j < |xs| :: key(xs[i]) != key(xs[j])
  }

  /** No key is lost, and none stays twice. */
  lemma {:induction false} FirstByKeepsKeys<X, K>(key: X -> K, xs: seq<X>)
    ensures Keys(key, FirstBy(key, xs)) == Keys(key, xs)
    ensures DistinctBy(key, FirstBy(key, xs))
  {
    if xs != [] {
      var n := |xs| - 1;
      FirstByKeepsKeys(key, xs[..n]);
      assert xs == xs[..n] + [xs[n]];
      assert Keys(key, xs) == Keys(key, xs[..n]) + {key(xs[n])};
      var before, r := FirstBy(key, xs[..n]), FirstBy(key, xs);
      if r != before {
        assert Keys(key, r) == Keys(key, before) + {key(xs[n])};
        forall i | 0 <= i < |before| ensures key(before[i]) != key(xs[n]) {
          assert key(before[i]) in Keys(key, before);
        }
      }
    }
  }

  /** The element that stays for a key is the first one, and stays in its place among the others. */
  lemma {:induction false} FirstByKeepsFirst<X, K>(key: X -> K, xs: seq<X>, i: nat)
    requires i < |xs| && key(xs[i]) !in Keys(key, xs[..i])
    ensures FirstBy(key, xs[..i]) + [xs[i]] <= FirstBy(key, xs)
    decreases |xs|
  {
    var n := |xs| - 1;
    if i < n {
      FirstByKeepsFirst(key, xs[..n], i);
      assert xs[..n][..i] == xs[..i];
    }
  }

  lemma {:induction false} FirstByTwice<X, K>(key: X -> K, xs: seq<X>)
    requires DistinctBy(key, xs)
    ensures FirstBy(key, xs) == xs
  {
    if xs != [] {
      var n := |xs| - 1;
      FirstByTwice(key, xs[..n]);
      assert xs == xs[..n] + [xs[n]];
    }
  }

  lemma {:induction false} FirstBySubset<X, K>(key: X -> K, xs: seq<X>)
    ensures forall x | x in FirstBy(key, xs) :: x in xs
    ensures xs != [] ==> FirstBy(key, xs) != []
    ensures |FirstBy(key, xs)| <= |xs|
  {
    if xs != [] {
      FirstBySubset(key, xs[..|xs| - 1]);
    }
  }

  lemma OneMore<X, K>(key: X -> K, xs: seq<X>, x: X)
    ensures FirstBy(key, xs + [x]) == if key(x) in Keys(key, xs) then FirstBy(key, xs) else FirstBy(key, xs) + [x]
    ensures Keys(key, xs + [x]) == Keys(key, xs) + {key(x)}
  {
    assert (xs + [x])[..|xs|] == xs;
  }
}
