/** Stable grouping by a key, groups in the order in which they first appear. */
module GroupBy {
  function Groups<X(!new), K(==)>(key: X -> K, xs: seq<X>): seq<K> {
    if xs == [] then []
    else
      var before, g := Groups(key, xs[..|xs| - 1]), key(xs[|xs| - 1]);
      if g in before then before else before + [g]
  }

  /** The elements of one group, in order. */
  function InGroup<X(!new), K(==)>(key: X -> K, g: K, xs: seq<X>): seq<X> {
    if xs == [] then []
    else
      var before, last := InGroup(key, g, xs[..|xs| - 1]), xs[|xs| - 1];
      if key(last) == g then before + [last] else before
  }

  function Sections<X(!new), K(==)>(key: X -> K, gs: seq<K>, xs: seq<X>): seq<X> {
    if gs == [] then [] else Sections(key, gs[..|gs| - 1], xs) + InGroup(key, gs[|gs| - 1], xs)
  }

  function Grouped<X(!new), K(==)>(key: X -> K, xs: seq<X>): seq<X> { Sections(key, Groups(key, xs), xs) }

  predicate Distinct<K(==)>(gs: seq<K>) { forall i, j | 0 <= i < j < |gs| :: gs[i] != gs[j] }

  lemma {:induction false} GroupsFound<X(!new), K>(key: X -> K, xs: seq<X>)
    ensures Distinct(Groups(key, xs))
    ensures forall x | x in xs :: key(x) in Groups(key, xs)
    ensures forall g | g in Groups(key, xs) :: InGroup(key, g, xs) != []
  {
    if xs != [] {
      var n := |xs| - 1;
      GroupsFound(key, xs[..n]);
      assert xs == xs[..n] + [xs[n]];
    }
  }

  lemma {:induction false} InGroupAppended<X(!new), K>(key: X -> K, g: K, xs: seq<X>, ys: seq<X>)
    ensures InGroup(key, g, xs + ys) == InGroup(key, g, xs) + InGroup(key, g, ys)
  {
    if ys == [] {
      assert xs + ys == xs;
    } else {
      var n := |ys| - 1;
      assert (xs + ys)[..|xs| + n] == xs + ys[..n];
      InGroupAppended(key, g, xs, ys[..n]);
    }
  }

  lemma {:induction false} InGroupTwice<X(!new), K>(key: X -> K, g: K, h: K, xs: seq<X>)
    ensures InGroup(key, g, InGroup(key, h, xs)) == if g == h then InGroup(key, g, xs) else []
  {
    if xs != [] {
      var n := |xs| - 1;
      InGroupTwice(key, g, h, xs[..n]);
      var before := InGroup(key, h, xs[..n]);
      assert (before + [xs[n]])[..|before|] == before;
    }
  }

  lemma {:induction false} InGroupOfSections<X(!new), K>(key: X -> K, g: K, gs: seq<K>, xs: seq<X>)
    requires Distinct(gs)
    ensures InGroup(key, g, Sections(key, gs, xs)) == if g in gs then InGroup(key, g, xs) else []
  {
    if gs != [] {
      var n := |gs| - 1;
      InGroupOfSections(key, g, gs[..n], xs);
      InGroupAppended(key, g, Sections(key, gs[..n], xs), InGroup(key, gs[n], xs));
      InGroupTwice(key, g, gs[n], xs);
      assert gs == gs[..n] + [gs[n]];
      assert InGroup(key, g, xs) + [] == InGroup(key, g, xs) && [] + InGroup(key, g, xs) == InGroup(key, g, xs);
    }
  }

  lemma {:induction false} InGroupCounts<X(!new), K>(key: X -> K, x: X, xs: seq<X>)
    ensures multiset(InGroup(key, key(x), xs))[x] == multiset(xs)[x]
  {
    if xs != [] {
      var n := |xs| - 1;
      InGroupCounts(key, x, xs[..n]);
      assert xs == xs[..n] + [xs[n]];
    }
  }

  lemma {:induction false} NoneInGroup<X(!new), K>(key: X -> K, g: K, xs: seq<X>)
    requires forall x | x in xs :: key(x) != g
    ensures InGroup(key, g, xs) == []
  {
    if xs != [] {
      NoneInGroup(key, g, xs[..|xs| - 1]);
    }
  }

  /** Grouping is stable. */
  lemma GroupingIsStable<X(!new), K>(key: X -> K, g: K, xs: seq<X>)
    ensures InGroup(key, g, Grouped(key, xs)) == InGroup(key, g, xs)
  {
    GroupsFound(key, xs);
    InGroupOfSections(key, g, Groups(key, xs), xs);
    if g !in Groups(key, xs) {
      NoneInGroup(key, g, xs);
    }
  }

  /** Grouping loses and doubles nothing. */
  lemma GroupingIsAPermutation<X(!new), K>(key: X -> K, xs: seq<X>)
    ensures multiset(Grouped(key, xs)) == multiset(xs)
  {
    forall x: X ensures multiset(Grouped(key, xs))[x] == multiset(xs)[x] {
      InGroupCounts(key, x, Grouped(key, xs));
      InGroupCounts(key, x, xs);
      GroupingIsStable(key, key(x), xs);
    }
  }
}
