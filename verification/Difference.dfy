/** Difference of internal/adapter/adapter.go: what changed between two normalized configurations. */
module Difference {
  import opened Model

  /** domainChanges is kept as a set; the source sorts it for display. */
  datatype Diff = Diff(added: nat, removed: nat, changed: nat, domainChanges: set<string>, requiresReview: bool)

  function Key(x: Item): string { if x.id == "" then x.name else x.id }

  /** The items by key; of several items with one key the last counts. */
  function Keyed(items: seq<Item>): map<string, Item> {
    if items == [] then map[]
    else Keyed(items[..|items| - 1])[Key(items[|items| - 1]) := items[|items| - 1]]
  }

  /** The hosts of the items; host yields "" for a URL without one. */
  function Hosts(host: string -> string, items: seq<Item>): set<string> {
    set x | x in items && host(x.url) != "" :: host(x.url)
  }

  function Changed<V(==)>(a: map<string, V>, b: map<string, V>): set<string> {
    set k | k in b && k in a && a[k] != b[k]
  }

  function DomainChanges(a: set<string>, b: set<string>): set<string> { if a == {} then {} else b - a }

  function DiffOf(host: string -> string, prior: seq<Item>, next: seq<Item>): Diff {
    var a, b := Keyed(prior), Keyed(next);
    var domains := DomainChanges(Hosts(host, prior), Hosts(host, next));
    var removed := |a.Keys - b.Keys|;
    Diff(|b.Keys - a.Keys|, removed, |Changed(a, b)|, domains, (|a| > 0 && 5 * removed >= |a|) || domains != {})
  }

  lemma HostsNext(host: string -> string, items: seq<Item>, x: Item)
    ensures Hosts(host, items + [x])
         == if host(x.url) != "" then Hosts(host, items) + {host(x.url)} else Hosts(host, items)
  {
    var was, now := Hosts(host, items), Hosts(host, items + [x]);
    assert forall y | y in items :: y in items + [x];
    assert x in items + [x];
  }

  lemma KeyedNext(items: seq<Item>, x: Item)
    ensures Keyed(items + [x]) == Keyed(items)[Key(x) := x]
  {
    assert (items + [x])[..|items|] == items;
  }

  method Index(host: string -> string, items: seq<Item>) returns (m: map<string, Item>, domains: set<string>)
    ensures m == Keyed(items) && domains == Hosts(host, items)
  {
    m, domains := map[], {};
    for i := 0 to |items|
      invariant m == Keyed(items[..i]) && domains == Hosts(host, items[..i])
    {
      var x := items[i];
      var key := if x.id == "" then x.name else x.id;
      m := m[key := x];
      if host(x.url) != "" {
        domains := domains + {host(x.url)};
      }
      HostsNext(host, items[..i], x);
      KeyedNext(items[..i], x);
      assert items[..i + 1] == items[..i] + [x];
    }
    assert items[..|items|] == items;
  }

  method CountNew<V(==)>(a: map<string, V>, b: map<string, V>) returns (added: nat, changed: nat)
    ensures added == |b.Keys - a.Keys| && changed == |Changed(a, b)|
  {
    added, changed := 0, 0;
    var rest := b.Keys;
    ghost var unseen: set<string> := {};
    ghost var differing: set<string> := {};
    while rest != {}
      invariant rest <= b.Keys
      invariant forall k :: k in unseen <==> k in b && k !in rest && k !in a
      invariant forall k :: k in differing <==> k in b && k !in rest && k in a && a[k] != b[k]
      invariant added == |unseen| && changed == |differing|
      decreases rest
    {
      var k :| k in rest;
      rest := rest - {k};
      if k !in a {
        added := added + 1;
        unseen := unseen + {k};
      } else if a[k] != b[k] {
        changed := changed + 1;
        differing := differing + {k};
      }
    }
    assert unseen == b.Keys - a.Keys;
    assert differing == Changed(a, b);
  }

  method CountGone(a: map<string, Item>, b: map<string, Item>) returns (removed: nat)
    ensures removed == |a.Keys - b.Keys|
  {
    removed := 0;
    var rest := a.Keys;
    ghost var gone: set<string> := {};
    while rest != {}
      invariant rest <= a.Keys && gone !! rest && gone <= a.Keys
      invariant forall k | k in a && k !in rest :: k in gone <==> k !in b
      invariant removed == |gone|
      decreases rest
    {
      var k :| k in rest;
      rest := rest - {k};
      if k !in b {
        removed := removed + 1;
        gone := gone + {k};
      }
    }
    assert gone == a.Keys - b.Keys;
  }

  method NewDomains(a: set<string>, b: set<string>) returns (domains: set<string>)
    ensures domains == DomainChanges(a, b)
  {
    domains := {};
    var rest := b;
    while rest != {}
      invariant rest <= b
      invariant domains == DomainChanges(a, b - rest)
      decreases rest
    {
      var h :| h in rest;
      if h !in a && |a| > 0 {
        domains := domains + {h};
      }
      rest := rest - {h};
    }
    assert b - rest == b;
  }

  method Compare(host: string -> string, prior: seq<Item>, next: seq<Item>) returns (d: Diff)
    ensures d == DiffOf(host, prior, next)
  {
    var a, domainsA := Index(host, prior);
    var b, domainsB := Index(host, next);
    var added, changed := CountNew(a, b);
    var removed := CountGone(a, b);
    var domains := NewDomains(domainsA, domainsB);
    d := Diff(added, removed, changed, domains, (|a| > 0 && 5 * removed >= |a|) || |domains| > 0);
  }

  // ---- laws ----

  lemma Cut<T>(a: set<T>, b: set<T>)
    ensures |a| == |a * b| + |a - b|
  {
    assert a == (a * b) + (a - b);
  }

  /** Keys are conserved, and comparing the other way round swaps what was added with what was removed. */
  lemma KeyBalance(host: string -> string, prior: seq<Item>, next: seq<Item>)
    ensures var d := DiffOf(host, prior, next); |Keyed(next)| == |Keyed(prior)| + d.added - d.removed
    ensures var d, r := DiffOf(host, prior, next), DiffOf(host, next, prior);
            r.added == d.removed && r.removed == d.added && r.changed == d.changed
  {
    var a, b := Keyed(prior), Keyed(next);
    Cut(a.Keys, b.Keys);
    Cut(b.Keys, a.Keys);
    assert a.Keys * b.Keys == b.Keys * a.Keys;
    assert Changed(a, b) == Changed(b, a);
  }

  lemma KeyedEmpty(items: seq<Item>)
    ensures |Keyed(items)| == 0 <==> items == []
  {
    if items != [] {
      assert Key(items[|items| - 1]) in Keyed(items).Keys;
    }
  }

  lemma NoNewDomains(a: set<string>, b: set<string>)
    ensures DomainChanges(a, b) == {} <==> a == {} || b <= a
  {
    if b - a == {} {
      forall h | h in b ensures h in a {
        assert h !in b - a;
      }
    }
  }

  /** An update needs no review exactly when it keeps more than four fifths of the old keys and
      adds no host to known ones. */
  lemma UnreviewedIsClose(host: string -> string, prior: seq<Item>, next: seq<Item>)
    ensures !DiffOf(host, prior, next).requiresReview <==>
      && (prior == [] || 5 * |Keyed(prior).Keys * Keyed(next).Keys| > 4 * |Keyed(prior)|)
      && (Hosts(host, prior) == {} || Hosts(host, next) <= Hosts(host, prior))
  {
    KeyedEmpty(prior);
    Cut(Keyed(prior).Keys, Keyed(next).Keys);
    NoNewDomains(Hosts(host, prior), Hosts(host, next));
  }

  /** Nothing changed exactly when both sides show the same items under the same keys. */
  lemma NoDifference(host: string -> string, prior: seq<Item>, next: seq<Item>)
    ensures var d := DiffOf(host, prior, next);
            d.added == d.removed == d.changed == 0 <==> Keyed(prior) == Keyed(next)
  {
    var a, b := Keyed(prior), Keyed(next);
    if |b.Keys - a.Keys| == |a.Keys - b.Keys| == |Changed(a, b)| == 0 {
      assert a.Keys == b.Keys;
      assert forall k | k in b :: k !in Changed(a, b);
    }
    if a == b {
      assert Changed(a, b) == {};
    }
  }

  // ---- what the numbers count ----

  /** By what two items are told apart: the id, and without one the name. */
  ghost predicate IsCalled(x: Item, k: string) { if x.id != "" then k == x.id else k == x.name }

  ghost predicate HasCalled(items: seq<Item>, k: string) { exists x | x in items :: IsCalled(x, k) }

  /** The last item of that name. */
  ghost predicate LastCalled(items: seq<Item>, k: string, x: Item) {
    exists i | 0 <= i < |items| ::
      items[i] == x && IsCalled(x, k) && forall j | i < j < |items| :: !IsCalled(items[j], k)
  }

  lemma {:induction false} KeyedMeans(items: seq<Item>, k: string)
    ensures k in Keyed(items) <==> HasCalled(items, k)
    ensures k in Keyed(items) ==> LastCalled(items, k, Keyed(items)[k])
  {
    if items != [] {
      var n := |items| - 1;
      KeyedMeans(items[..n], k);
      assert items == items[..n] + [items[n]];
      if IsCalled(items[n], k) {
        assert items[n] in items;
      } else if k in Keyed(items) {
        var x := Keyed(items)[k];
        var i :| 0 <= i < n && items[..n][i] == x && forall j | i < j < n :: !IsCalled(items[..n][j], k);
        assert forall j | i < j < |items| :: !IsCalled(items[j], k);
        assert items[i] == x;
      }
    }
  }

  lemma LastIsOne(items: seq<Item>, k: string, x: Item, y: Item)
    requires LastCalled(items, k, x) && LastCalled(items, k, y)
    ensures x == y
  {
    var i :| 0 <= i < |items| && items[i] == x && IsCalled(x, k)
             && forall n | i < n < |items| :: !IsCalled(items[n], k);
    var j :| 0 <= j < |items| && items[j] == y && IsCalled(y, k)
             && forall n | j < n < |items| :: !IsCalled(items[n], k);
  }

  /** Under this name stands something else than before. */
  ghost predicate Altered(prior: seq<Item>, next: seq<Item>, k: string) {
    exists x, y :: LastCalled(prior, k, x) && LastCalled(next, k, y) && x != y
  }

  lemma AlteredMeans(prior: seq<Item>, next: seq<Item>, k: string)
    ensures Altered(prior, next, k) <==> k in Changed(Keyed(prior), Keyed(next))
  {
    KeyedMeans(prior, k);
    KeyedMeans(next, k);
    if Altered(prior, next, k) {
      var x, y :| LastCalled(prior, k, x) && LastCalled(next, k, y) && x != y;
      assert HasCalled(prior, k) && HasCalled(next, k);
      LastIsOne(prior, k, x, Keyed(prior)[k]);
      LastIsOne(next, k, y, Keyed(next)[k]);
    }
  }

  /** The three counts are the sizes of what their names say: the items that are new, those that are gone, and those
      that stay under their name but are no longer the same. */
  lemma CountsMean(host: string -> string, prior: seq<Item>, next: seq<Item>, more: set<string>, gone: set<string>,
                   altered: set<string>)
    requires forall k :: k in more <==> HasCalled(next, k) && !HasCalled(prior, k)
    requires forall k :: k in gone <==> HasCalled(prior, k) && !HasCalled(next, k)
    requires forall k :: k in altered <==> Altered(prior, next, k)
    ensures var d := DiffOf(host, prior, next); d.added == |more| && d.removed == |gone| && d.changed == |altered|
  {
    var a, b := Keyed(prior), Keyed(next);
    forall k ensures (k in a <==> HasCalled(prior, k)) && (k in b <==> HasCalled(next, k)) {
      KeyedMeans(prior, k);
      KeyedMeans(next, k);
    }
    forall k ensures k in altered <==> k in Changed(a, b) {
      AlteredMeans(prior, next, k);
    }
    assert more == b.Keys - a.Keys && gone == a.Keys - b.Keys && altered == Changed(a, b);
  }

  ghost predicate Served(host: string -> string, items: seq<Item>, h: string) {
    h != "" && exists x | x in items :: host(x.url) == h
  }

  /** A host is reported when the new items use it and the old ones did not, but used some other. */
  lemma DomainsMean(host: string -> string, prior: seq<Item>, next: seq<Item>, h: string)
    ensures h in DiffOf(host, prior, next).domainChanges <==>
              Served(host, next, h) && !Served(host, prior, h) && exists o :: Served(host, prior, o)
  {
    assert forall o :: o in Hosts(host, prior) <==> Served(host, prior, o);
    assert h in Hosts(host, next) <==> Served(host, next, h);
    if Hosts(host, prior) != {} {
      var o :| o in Hosts(host, prior);
      assert Served(host, prior, o);
    }
  }
}
