/** The transactions that move sources into and out of aggregate sets: internal/service/aggregate.go. */
module Membership {
  import opened Model
  import opened Members
  import opened Sources
  import opened Publisher

  /** How sources are grouped into aggregate sets, and how those are called. What is proved holds for any grouping. */
  datatype Grouping = Grouping(bucket: (string, seq<string>) -> Id, slugs: set<Id>, title: Id -> string,
                               about: Id -> string)
  {
    function Of(v: Source): Id { bucket(v.protocol, v.settings.mediaTypes) }
  }

  // ---- membership ----

  function AggregateMember(id: Id): Member { Member(id, 100, 1, Primary, 0, [], [], [], [], [], 15000, 2) }

  function Without(ms: seq<Member>, id: Id): seq<Member> {
    if ms == [] then []
    else
      var n := |ms| - 1;
      if ms[n].sourceId == id then Without(ms[..n], id) else Without(ms[..n], id) + [ms[n]]
  }

  predicate HasMember(s: SourceSet, id: Id) { exists m | m in s.members :: m.sourceId == id }

  function StrippedSet(s: SourceSet, id: Id, stamp: Stamp): SourceSet {
    if HasMember(s, id) then s.(members := Without(s.members, id), signature := Unsigned, updatedAt := stamp) else s
  }

  type Sets = map<Id, SourceSet>

  /** stripAggregateMembershipTx, and the transaction of removeFromAggregates. */
  function Stripped(g: Grouping, sets: Sets, id: Id, stamp: Stamp): Sets {
    map k | k in sets :: if k in g.slugs then StrippedSet(sets[k], id, stamp) else sets[k]
  }

  function NewAggregate(g: Grouping, slug: Id, stamp: Stamp): SourceSet {
    SourceSet(g.title(slug), g.about(slug), [], [], true, 1, 100, Unsigned, "", "", stamp)
  }

  /** upsertAggregateMember: out of every aggregate, then into the one of its type. */
  function Upserted(g: Grouping, sets: Sets, id: Id, v: Source, stamp: Stamp): Sets {
    var stripped := Stripped(g, sets, id, stamp);
    var slug := g.Of(v);
    var s := if slug in stripped then stripped[slug] else NewAggregate(g, slug, stamp);
    stripped[slug := s.(members := s.members + [AggregateMember(id)], signature := Unsigned, updatedAt := stamp)]
  }

  /** The first transaction of ReconcileAggregates. */
  function Cleared(g: Grouping, sets: Sets, stamp: Stamp): Sets {
    map k | k in sets ::
      if k in g.slugs && sets[k].members != [] then sets[k].(members := [], signature := Unsigned, updatedAt := stamp)
      else sets[k]
  }

  function MembersOf(sets: Sets, k: Id): seq<Member> { if k in sets then sets[k].members else [] }

  lemma {:induction false} WithoutIs(ms: seq<Member>, id: Id)
    ensures forall m | m in Without(ms, id) :: m in ms && m.sourceId != id
    ensures Distinct(ms) ==> Distinct(Without(ms, id))
  {
    if ms != [] {
      var n := |ms| - 1;
      WithoutIs(ms[..n], id);
      assert ms == ms[..n] + [ms[n]];
      forall m | m in Without(ms[..n], id) ensures Distinct(ms) ==> m.sourceId != ms[n].sourceId {
        var i :| 0 <= i < n && ms[i] == m;
      }
    }
  }
}
