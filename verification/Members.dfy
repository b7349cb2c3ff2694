/** Members of a source set and the order in which a publication compiles them: internal/service/publisher.go. */
module Members {
  import opened Model
  import opened Text

  datatype Role = Primary | Backup | Auxiliary

  datatype Member = Member(
    sourceId: Id, priority: int, weight: int, role: Role, minScore: int, mediaTypes: seq<string>,
    languages: seq<string>, regions: seq<string>, devices: seq<string>, networks: seq<string>,
    timeoutMs: int, maxConcurrency: int)

  function RoleOrder(r: Role): int {
    match r
    case Primary => 0
    case Backup => 1
    case Auxiliary => 2
  }

  /** The comparator of the publication sort. */
  predicate Before(a: Member, b: Member) {
    if a.priority != b.priority then a.priority > b.priority
    else if a.role != b.role then RoleOrder(a.role) < RoleOrder(b.role)
    else TextLess(a.sourceId, b.sourceId)
  }

  lemma BeforeTotal(a: Member, b: Member)
    ensures !(Before(a, b) && Before(b, a))
    ensures a.sourceId != b.sourceId ==> Before(a, b) || Before(b, a)
  {
    TextTotal(a.sourceId, b.sourceId);
  }

  lemma BeforeTransitive(a: Member, b: Member, c: Member)
    requires Before(a, b) && Before(b, c)
    ensures Before(a, c)
  {
    if a.priority == b.priority == c.priority && a.role == b.role == c.role {
      TextTransitive(a.sourceId, b.sourceId, c.sourceId);
    }
  }

  ghost predicate Distinct(ms: seq<Member>) {
    forall i, j | 0 <= i < j < |ms| :: ms[i].sourceId != ms[j].sourceId
  }

  ghost predicate Ordered(ms: seq<Member>) { forall i, j | 0 <= i < j < |ms| :: Before(ms[i], ms[j]) }

  lemma PlacedInOrder(sorted: seq<Member>, m: Member, k: nat)
    requires Ordered(sorted) && k <= |sorted|
    requires forall i | 0 <= i < k :: Before(sorted[i], m)
    requires forall j | k <= j < |sorted| :: Before(m, sorted[j])
    ensures var out := sorted[..k] + [m] + sorted[k..]; Ordered(out) && multiset(out) == multiset(sorted) + multiset{m}
  {
    assert sorted == sorted[..k] + sorted[k..];
    var out := sorted[..k] + [m] + sorted[k..];
    forall i, j | 0 <= i < j < |out| ensures Before(out[i], out[j]) {
      assert out[i] == if i < k then sorted[i] else if i == k then m else sorted[i - 1];
      assert out[j] == if j < k then sorted[j] else if j == k then m else sorted[j - 1];
    }
  }

  /** One step of insertion: m goes before the members it must precede. */
  method Insert(sorted: seq<Member>, m: Member) returns (out: seq<Member>)
    requires Ordered(sorted) && forall x | x in sorted :: x.sourceId != m.sourceId
    ensures Ordered(out) && multiset(out) == multiset(sorted) + multiset{m}
  {
    var k := |sorted|;
    while k > 0 && Before(m, sorted[k - 1])
      invariant 0 <= k <= |sorted|
      invariant forall j | k <= j < |sorted| :: Before(m, sorted[j])
    {
      k := k - 1;
    }
    forall i | 0 <= i < k ensures Before(sorted[i], m) {
      assert sorted[i] in sorted && sorted[k - 1] in sorted;
      BeforeTotal(sorted[k - 1], m);
      if i < k - 1 {
        BeforeTransitive(sorted[i], sorted[k - 1], m);
      }
    }
    PlacedInOrder(sorted, m, k);
    out := sorted[..k] + [m] + sorted[k..];
  }

  function Inserted(sorted: seq<Member>, m: Member): seq<Member> {
    var n := |sorted| - 1;
    if sorted == [] || !Before(m, sorted[n]) then sorted + [m] else Inserted(sorted[..n], m) + [sorted[n]]
  }

  function Sorted(ms: seq<Member>): seq<Member> {
    if ms == [] then [] else Inserted(Sorted(ms[..|ms| - 1]), ms[|ms| - 1])
  }

  lemma {:induction false} InsertedContents(sorted: seq<Member>, m: Member)
    ensures multiset(Inserted(sorted, m)) == multiset(sorted) + multiset{m}
  {
    var n := |sorted| - 1;
    if sorted != [] && Before(m, sorted[n]) {
      InsertedContents(sorted[..n], m);
      assert sorted == sorted[..n] + [sorted[n]];
    }
  }

  lemma {:induction false} InsertedIsOrdered(sorted: seq<Member>, m: Member)
    requires Ordered(sorted) && forall x | x in sorted :: x.sourceId != m.sourceId
    ensures Ordered(Inserted(sorted, m))
  {
    var n := |sorted| - 1;
    if sorted == [] {
    } else if Before(m, sorted[n]) {
      InsertedIsOrdered(sorted[..n], m);
      InsertedContents(sorted[..n], m);
      var front := Inserted(sorted[..n], m);
      forall i | 0 <= i < |front| ensures Before(front[i], sorted[n]) {
        assert front[i] in multiset(front);
        assert front[i] == m || front[i] in sorted[..n];
      }
    } else {
      BeforeTotal(sorted[n], m);
      forall i | 0 <= i < n ensures Before(sorted[i], m) {
        BeforeTransitive(sorted[i], sorted[n], m);
      }
    }
  }

  lemma NextIsNew(ms: seq<Member>, i: nat, prefix: multiset<Member>, x: Member)
    requires Distinct(ms) && i < |ms| && prefix == multiset(ms[..i]) && x in prefix
    ensures x.sourceId != ms[i].sourceId
  {
    assert x in ms[..i];
  }

  lemma SameContentsIsNew(ms: seq<Member>, i: nat, sorted: seq<Member>)
    requires Distinct(ms) && i < |ms| && multiset(sorted) == multiset(ms[..i])
    ensures forall x | x in sorted :: x.sourceId != ms[i].sourceId
  {
    forall x | x in sorted ensures x.sourceId != ms[i].sourceId {
      assert x in multiset(sorted);
      NextIsNew(ms, i, multiset(sorted), x);
    }
  }

  lemma OneMoreSorted(ms: seq<Member>, n: nat, before: seq<Member>)
    requires Distinct(ms) && n < |ms| && Ordered(before) && multiset(before) == multiset(ms[..n])
    ensures Ordered(Inserted(before, ms[n])) && multiset(Inserted(before, ms[n])) == multiset(ms[..n + 1])
  {
    SameContentsIsNew(ms, n, before);
    InsertedIsOrdered(before, ms[n]);
    InsertedContents(before, ms[n]);
    assert ms[..n + 1] == ms[..n] + [ms[n]];
  }

  lemma {:induction false} SortedIsOrdered(ms: seq<Member>)
    requires Distinct(ms)
    ensures Ordered(Sorted(ms)) && multiset(Sorted(ms)) == multiset(ms)
  {
    if ms != [] {
      var n := |ms| - 1;
      SortedIsOrdered(ms[..n]);
      OneMoreSorted(ms, n, Sorted(ms[..n]));
      assert ms[..n + 1] == ms;
    }
  }

  /** sort.SliceStable on members without a repeated source. */
  method Sort(ms: seq<Member>) returns (out: seq<Member>)
    requires Distinct(ms)
    ensures multiset(out) == multiset(ms) && Ordered(out)
    ensures out == Sorted(ms) && |out| == |ms|
  {
    out := [];
    for i := 0 to |ms|
      invariant multiset(out) == multiset(ms[..i]) && Ordered(out)
    {
      SameContentsIsNew(ms, i, out);
      out := Insert(out, ms[i]);
      assert ms[..i + 1] == ms[..i] + [ms[i]];
    }
    assert ms[..|ms|] == ms;
    SortedIsOrdered(ms);
    OrderIsCanonical(out, Sorted(ms));
    assert |multiset(out)| == |out| && |multiset(ms)| == |ms|;
  }

  lemma SameFirst(a: seq<Member>, b: seq<Member>)
    requires multiset(a) == multiset(b) && Ordered(a) && Ordered(b) && a != [] && b != []
    ensures a[0] == b[0]
  {
    assert a[0] in multiset(a) && b[0] in multiset(b);
    assert a[0] in b && b[0] in a;
    var i :| 0 <= i < |a| && a[i] == b[0];
    var j :| 0 <= j < |b| && b[j] == a[0];
    BeforeTotal(a[0], b[0]);
  }

  /** Two orderings of the same members are the same list: the publication order is canonical. */
  lemma {:induction false} OrderIsCanonical(a: seq<Member>, b: seq<Member>)
    requires multiset(a) == multiset(b) && Ordered(a) && Ordered(b)
    ensures a == b
  {
    assert |a| == |multiset(a)| && |b| == |multiset(b)|;
    if a != [] {
      SameFirst(a, b);
      assert a == [a[0]] + a[1..] && b == [b[0]] + b[1..];
      assert multiset(a[1..]) == multiset(a) - multiset{a[0]};
      assert multiset(b[1..]) == multiset(b) - multiset{b[0]};
      OrderIsCanonical(a[1..], b[1..]);
    }
  }

  /** What the order is: higher priority first; among equals primaries, then backups, then auxiliaries; and then by
      id. */
  lemma OrderMeans(ms: seq<Member>, i: nat, j: nat)
    requires Distinct(ms) && i < j < |Sorted(ms)|
    ensures var a, b := Sorted(ms)[i], Sorted(ms)[j];
            && a.priority >= b.priority
            && (a.priority == b.priority ==>
                  && (b.role == Primary ==> a.role == Primary) && (b.role == Backup ==> a.role != Auxiliary)
                  && (a.role == b.role ==> TextLess(a.sourceId, b.sourceId)))
  {
    SortedIsOrdered(ms);
    assert Before(Sorted(ms)[i], Sorted(ms)[j]);
  }
}
