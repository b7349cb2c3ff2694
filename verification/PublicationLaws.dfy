/** What choosing, publishing and editing a source set mean for the rows, said without the
    functions that compute them. */
module PublicationLaws {
  import opened Common
  import opened Model
  import opened Members
  import opened Sources
  import opened Publisher
  import opened PublicationRuns
  import opened Membership
  import opened Text

  // ---- the item filter ----

  predicate Passes(m: Member, x: Item) {
    (m.languages == [] || x.language in m.languages) && (m.regions == [] || x.region in m.regions)
  }

  lemma FilterIsEmpty(m: Member, items: seq<Item>)
    ensures Filtered(m.languages, m.regions, items) == [] <==> forall x | x in items :: !Passes(m, x)
  {
    var kept := Filtered(m.languages, m.regions, items);
    forall x ensures x in kept <==> x in items && Passes(m, x) {
      FilteredMeans(m.languages, m.regions, items, x);
    }
    if kept != [] {
      assert kept[0] in kept;
    }
  }

  // ---- which member publishes ----

  /** What the source's own row and the member ask for. */
  predicate RowAllows(v: Source, m: Member) {
    && v.enabled && v.active != "" && (v.health == Unknown || v.health == Healthy || v.health == Degraded)
    && v.score >= m.minScore && v.settings.mode != "catalog-only"
    && (m.mediaTypes == [] || exists x | x in m.mediaTypes :: x in v.settings.mediaTypes)
  }

  predicate ItemsLeft(n: Normalized, m: Member) {
    (m.languages == [] && m.regions == []) || exists x | x in n.items :: Passes(m, x)
  }

  /** All that the source demands of a member it publishes. */
  predicate MayPublish(st: Store, m: Member) {
    && m.sourceId in st.db.sources
    && var v := st.db.sources[m.sourceId];
       && RowAllows(v, m) && v.active in st.db.revisions
       && st.db.revisions[v.active].status == Approved && ItemsLeft(st.db.revisions[v.active].normalized, m)
       && (v.settings.runtimeId != "" ==>
             v.settings.runtimeId in st.runtimes && st.runtimes[v.settings.runtimeId].healthy)
  }

  lemma NoReason(v: Source, m: Member)
    ensures Reason(v, m) == "" <==> RowAllows(v, m)
  {
    assert forall h: Health :: HealthText(h) != "";
  }

  /** A member is chosen exactly when it may publish, with its active revision and the address a client is sent to:
      the runtime's, when the source has one, and otherwise its own. */
  lemma ChosenExactly(st: Store, m: Member)
    ensures Verdict(st, m).Ok? && Verdict(st, m).value.Chosen? <==> MayPublish(st, m)
    ensures MayPublish(st, m) ==>
              var v, x := st.db.sources[m.sourceId], Verdict(st, m).value.item;
              && x.id == m.sourceId && x.source == v && x.member == m && x.revision == v.active
              && x.content == st.db.revisions[v.active].normalized
              && (v.settings.runtimeId == "" ==> x.endpoint == v.url && x.driver == v.protocol)
              && (v.settings.runtimeId != "" ==>
                    var rt := st.runtimes[v.settings.runtimeId]; x.endpoint == rt.url && x.driver == rt.driver)
  {
    if m.sourceId in st.db.sources {
      var v := st.db.sources[m.sourceId];
      NoReason(v, m);
      if v.active in st.db.revisions {
        FilterIsEmpty(m, st.db.revisions[v.active].normalized.items);
      }
    }
  }

  /** The publication stops, instead of excluding a member, exactly when a row it needs is missing, or the active
      revision is not approved. */
  lemma StopsExactly(st: Store, m: Member)
    ensures Verdict(st, m).Err? <==>
              || m.sourceId !in st.db.sources
              || var v := st.db.sources[m.sourceId];
                 && RowAllows(v, m)
                 && (|| v.active !in st.db.revisions
                     || st.db.revisions[v.active].status != Approved
                     || (ItemsLeft(st.db.revisions[v.active].normalized, m) && v.settings.runtimeId != ""
                         && v.settings.runtimeId !in st.runtimes))
  {
    if m.sourceId in st.db.sources {
      var v := st.db.sources[m.sourceId];
      NoReason(v, m);
      if v.active in st.db.revisions {
        FilterIsEmpty(m, st.db.revisions[v.active].normalized.items);
      }
    }
  }

  /** Each reason on the source's row is given exactly when what it names is so, and nothing before it. */
  lemma RowReasons(v: Source, m: Member)
    ensures var r := Reason(v, m);
            && (r == "disabled" <==> !v.enabled || (v.active != "" && v.health == Health.Disabled))
            && (r == "no_approved_revision" <==> v.enabled && v.active == "")
            && (r == "quarantined" <==> v.enabled && v.active != "" && v.health == Quarantined)
            && (r == "failing" <==> v.enabled && v.active != "" && v.health == Failing)
            && (r == "avoid" <==> v.enabled && v.active != "" && v.health == Avoid)
  {
  }

  lemma MemberReasons(v: Source, m: Member)
    requires v.enabled && v.active != "" && (v.health == Unknown || v.health == Healthy || v.health == Degraded)
    ensures var r := Reason(v, m);
            && (r == "below_minimum_health" <==> v.score < m.minScore)
            && (r == "catalog_only" <==> v.score >= m.minScore && v.settings.mode == "catalog-only")
            && (r == "media_filtered" <==>
                  && v.score >= m.minScore && v.settings.mode != "catalog-only" && m.mediaTypes != []
                  && forall x | x in m.mediaTypes :: x !in v.settings.mediaTypes)
  {
  }

  /** The reason a publication records: the row's own, and only without one that no item passes the filter or that the
      runtime is not healthy. */
  lemma ExcludedExactly(st: Store, m: Member, reason: string)
    requires m.sourceId in st.db.sources
    ensures Verdict(st, m) == Ok(Excluded(reason)) <==>
              var v := st.db.sources[m.sourceId];
              || (!RowAllows(v, m) && reason == Reason(v, m))
              || (&& RowAllows(v, m) && v.active in st.db.revisions && st.db.revisions[v.active].status == Approved
                  && var left := ItemsLeft(st.db.revisions[v.active].normalized, m);
                     || (!left && reason == "item_filter_empty")
                     || (&& left && v.settings.runtimeId != "" && v.settings.runtimeId in st.runtimes
                         && !st.runtimes[v.settings.runtimeId].healthy && reason == "runtime_unavailable"))
  {
    var v := st.db.sources[m.sourceId];
    NoReason(v, m);
    if v.active in st.db.revisions {
      FilterIsEmpty(m, st.db.revisions[v.active].normalized.items);
    }
  }

  /** Of all members that are judged, those that may publish are selected and the others are excluded. */
  lemma {:induction false} SelectionMeans(st: Store, members: seq<Member>, n: nat, i: nat)
    requires Distinct(members) && i < n <= |members| && Choose(st, members[..n]).Ok?
    ensures members[i].sourceId in Choose(st, members[..n]).value.excluded <==> !MayPublish(st, members[i])
  {
    var before := members[..n - 1];
    assert members[..n][..n - 1] == before && members[..n][n - 1] == members[n - 1];
    ChosenExactly(st, members[n - 1]);
    if i < n - 1 {
      SelectionMeans(st, members, n - 1, i);
    } else {
      ExcludedAreMembers(st, before);
      assert members[i].sourceId !in Choose(st, before).value.excluded;
    }
  }

  lemma SelectionOfSet(st: Store, s: SourceSet, m: Member)
    requires Distinct(s.members) && m in s.members && Choose(st, Sorted(s.members)).Ok?
    ensures m.sourceId in Choose(st, Sorted(s.members)).value.excluded <==> !MayPublish(st, m)
    ensures m.sourceId in SourceIds(s.members)
  {
    var ms := Sorted(s.members);
    SortedIsOrdered(s.members);
    SortedKeepsIds(s.members);
    SameElements(s.members, ms);
    var i :| 0 <= i < |ms| && ms[i] == m;
    assert ms[..|ms|] == ms;
    SelectionMeans(st, ms, |ms|, i);
  }

  lemma AccountedMeans(st: Store, s: SourceSet, c: Split, p: Publication, m: Member)
    requires FullyAccounted(st.db, s, p) && p.exclusions == c.excluded && m.sourceId in SourceIds(s.members)
    requires m.sourceId in c.excluded <==> !MayPublish(st, m)
    ensures m.sourceId in p.sourceRevisions <==> MayPublish(st, m)
    ensures m.sourceId in p.exclusions <==> !MayPublish(st, m)
    ensures MayPublish(st, m) ==> p.sourceRevisions[m.sourceId] == st.db.sources[m.sourceId].active
  {
    assert m.sourceId in p.sourceRevisions ==>
        ActiveAndApproved(st.db, m.sourceId, p.sourceRevisions[m.sourceId]);
  }

  /** A publication, previewed or stored, holds a member's source exactly when the member may publish, at its active
      revision, and otherwise lists it among the exclusions. */
  lemma PublishesExactly(st: Store, compile: Compiler, id: Id, automatic: bool, preview: bool, pubId: Id, now: int,
                         o: Outcome, m: Member)
    requires id in st.sets && Distinct(st.sets[id].members) && m in st.sets[id].members
    requires o == Prepare(st, compile, id, automatic, preview, pubId, now) && (o.Published? || o.Previewed?)
    ensures m.sourceId in o.p.sourceRevisions <==> MayPublish(st, m)
    ensures m.sourceId in o.p.exclusions <==> !MayPublish(st, m)
    ensures MayPublish(st, m) ==> o.p.sourceRevisions[m.sourceId] == st.db.sources[m.sourceId].active
  {
    PublicationAccounts(st, compile, id, automatic, preview, pubId, now, o);
    PreparedStands(st, compile, id, automatic, preview, pubId, now);
    SelectionOfSet(st, st.sets[id], m);
    AccountedMeans(st, st.sets[id], Choose(st, Sorted(st.sets[id].members)).value, o.p, m);
  }

  // ---- when a publication is made ----

  /** What automation needs before it publishes: that the set allows it, that enough members are selected and few enough
      are excluded. */
  predicate WithinLimits(s: SourceSet, c: Split) {
    && s.autoPublish && |c.items| >= s.minAvailable
    && |c.excluded| * 100 <= s.maxExcludedPercent * |s.members|
  }

  /** With something selected, a publication is stored exactly when this is no preview, it compiles, and, for an
      automatic one, it is within the limits and an input has changed. It holds what was compiled. */
  lemma StoredExactly(st: Store, compile: Compiler, id: Id, automatic: bool, preview: bool, pubId: Id, now: int,
                      c: Split)
    requires id in st.sets && Choose(st, Sorted(st.sets[id].members)) == Ok(c) && c.items != []
    ensures var s, o := st.sets[id], Prepare(st, compile, id, automatic, preview, pubId, now);
            var compiled := compile(id, s.name, s.rules, c.items, pubId, now);
            var wanted := automatic ==> WithinLimits(s, c) && (s.current == "" || s.signature != SignatureOf(s, c));
            && (o.Published? <==> !preview && wanted && compiled.Some?)
            && (o.Previewed? <==> preview && wanted && compiled.Some?)
            && (o.Published? || o.Previewed? ==> o.p.setId == id && o.p.artifacts == compiled.value)
            && (o.Published? ==> o.signature == SignatureOf(s, c))
            && (o == Failed(CompileFailed) <==> wanted && compiled.None?)
            && (o == Failed(HeldByPolicy) <==> automatic && !WithinLimits(s, c))
  {
  }

  /** With nothing selected only an aggregate without members is published, as its empty bundle; an automatic publish
      keeps what there is, and any other fails with the reasons. */
  lemma NothingMeans(st: Store, compile: Compiler, id: Id, automatic: bool, preview: bool, pubId: Id, now: int,
                     c: Split)
    requires id in st.sets && Choose(st, Sorted(st.sets[id].members)) == Ok(c) && c.items == []
    ensures var s, o := st.sets[id], Prepare(st, compile, id, automatic, preview, pubId, now);
            var empties := IsAggregateSetID(id) && s.members == [] && !preview;
            && (o.Published? <==> empties)
            && (empties ==> o.p.setId == id && o.p.sourceRevisions == map[] && o.signature == EmptyAggregate)
            && (o.Kept? <==> !empties && automatic && s.current != "" && s.current in st.publications)
            && (o.Kept? ==> o.id == s.current)
            && (o == Failed(Ineligible(c.excluded)) <==> !empties && !(automatic && s.current != ""))
  {
  }

  /** Exactly the same things enter the two signatures. */
  ghost predicate SameItem(x: Selected, y: Selected) {
    var s, t := x.source, y.source;
    && x.id == y.id && x.revision == y.revision && x.endpoint == y.endpoint && x.driver == y.driver
    && s.settings.name == t.settings.name && s.settings.mode == t.settings.mode
    && s.settings.mediaTypes == t.settings.mediaTypes && s.settings.hubProxyMode == t.settings.hubProxyMode
    && s.health == t.health && s.score == t.score
  }

  ghost predicate SameItems(xs: seq<Selected>, ys: seq<Selected>) {
    |xs| == |ys| && forall i | 0 <= i < |xs| :: SameItem(xs[i], ys[i])
  }

  lemma {:induction false} InputsAgree(xs: seq<Selected>, ys: seq<Selected>)
    ensures InputsOf(xs) == InputsOf(ys) <==> SameItems(xs, ys)
  {
    InputsLength(xs);
    InputsLength(ys);
    if |xs| == |ys| && xs != [] {
      var n := |xs| - 1;
      InputsAgree(xs[..n], ys[..n]);
      InputsLength(xs[..n]);
      InputsLength(ys[..n]);
      assert InputsOf(xs)[..n] == InputsOf(xs[..n]) && InputsOf(ys)[..n] == InputsOf(ys[..n]);
      assert SameItems(xs, ys) <==> SameItems(xs[..n], ys[..n]) && SameItem(xs[n], ys[n]);
      assert InputsOf(xs) == InputsOf(xs)[..n] + [InputsOf(xs)[n]];
      assert InputsOf(ys) == InputsOf(ys)[..n] + [InputsOf(ys)[n]];
    }
  }

  lemma {:induction false} InputsLength(xs: seq<Selected>)
    ensures |InputsOf(xs)| == |xs|
  {
    if xs != [] {
      InputsLength(xs[..|xs| - 1]);
    }
  }

  lemma SortedAgree(a: seq<Member>, b: seq<Member>)
    requires Distinct(a) && Distinct(b)
    ensures Sorted(a) == Sorted(b) <==> multiset(a) == multiset(b)
  {
    SortedIsOrdered(a);
    SortedIsOrdered(b);
    if multiset(a) == multiset(b) {
      OrderIsCanonical(Sorted(a), Sorted(b));
    }
  }

  /** Two signatures are equal exactly when every input is: name, description, members in any order, rules, exclusions
      with their reasons, and of each selected source what its clients can notice. */
  lemma SignaturesAgree(s: SourceSet, c: Split, t: SourceSet, d: Split)
    requires Distinct(s.members) && Distinct(t.members)
    ensures SignatureOf(s, c) == SignatureOf(t, d) <==>
              && s.name == t.name && s.description == t.description && multiset(s.members) == multiset(t.members)
              && s.rules == t.rules && c.excluded == d.excluded && SameItems(c.items, d.items)
  {
    SortedAgree(s.members, t.members);
    InputsAgree(c.items, d.items);
  }

  // ---- the pointers ----

  /** What a set is, apart from its pointers and the time of the last change. */
  predicate SameDraft(s: SourceSet, t: SourceSet) {
    && t.name == s.name && t.description == s.description && t.members == s.members && t.rules == s.rules
    && t.autoPublish == s.autoPublish && t.minAvailable == s.minAvailable
    && t.maxExcludedPercent == s.maxExcludedPercent
  }

  ghost predicate OnlySet(was: Store, now: Store, id: Id) {
    && now.db == was.db && now.runtimes == was.runtimes && id in was.sets && now.sets.Keys == was.sets.Keys
    && forall k | k in was.sets && k != id :: now.sets[k] == was.sets[k]
  }

  /** A publication that is stored becomes the current one, and the one before it the previous. */
  lemma PublishMeans(st: Store, id: Id, o: Outcome, pubId: Id, stamp: Stamp)
    requires o.Published? && id in st.sets
    ensures var after := Settle(st, id, o, pubId, stamp);
            && OnlySet(st, after, id) && after.publications.Keys == st.publications.Keys + {pubId}
            && after.publications[pubId] == o.p
            && (forall p | p in st.publications && p != pubId :: after.publications[p] == st.publications[p])
            && var s, t := st.sets[id], after.sets[id];
               && SameDraft(s, t) && t.current == pubId && t.previous == s.current
               && t.signature == o.signature && t.updatedAt == stamp
  {
  }

  /** A rollback makes any publication of the set the current one and the one before it the previous; to the current one
      it does nothing, and it fails only without its rows. */
  lemma RollbackMeans(st: Store, pubId: Id, stamp: Stamp)
    ensures RolledBack(st, pubId, stamp).Ok? <==>
              pubId in st.publications && st.publications[pubId].setId in st.sets
    ensures RolledBack(st, pubId, stamp).Ok? ==>
              var id, after := st.publications[pubId].setId, RolledBack(st, pubId, stamp).value;
              && OnlySet(st, after, id) && after.publications == st.publications
              && var s, t := st.sets[id], after.sets[id];
                 && SameDraft(s, t) && t.current == pubId && t.signature == s.signature
                 && (s.current == pubId ==> after == st)
                 && (s.current != pubId ==> t.previous == s.current && t.updatedAt == stamp)
  {
  }

  /** Rolling back to what was current undoes a rollback; the two publications have changed places. */
  lemma RollbackTwice(st: Store, pubId: Id, first: Stamp, second: Stamp)
    requires PointersOk(st) && RolledBack(st, pubId, first).Ok?
    requires var s := st.sets[st.publications[pubId].setId]; s.current != "" && s.current != pubId
    ensures var id := st.publications[pubId].setId;
            var was := st.sets[id];
            var mid := RolledBack(st, pubId, first).value;
            && mid.sets[id].previous == was.current && RolledBack(mid, was.current, second).Ok?
            && var back := RolledBack(mid, was.current, second).value.sets[id];
               back.current == was.current && back.previous == pubId
  {
    var id := st.publications[pubId].setId;
    assert Points(st, id, st.sets[id].current);
  }

  /** An aggregate that lost its last member publishes nothing but its empty bundle, and only once. */
  lemma WithdrawMeans(st: Store, id: Id, pubId: Id, stamp: Stamp)
    ensures Withdrawn(st, id, pubId, stamp).Ok? <==> id in st.sets
    ensures id in st.sets ==>
              var s, after := st.sets[id], Withdrawn(st, id, pubId, stamp).value;
              if s.members != [] || (s.signature == EmptyAggregate && s.current != "") then after == st
              else
                && OnlySet(st, after, id) && after.publications.Keys == st.publications.Keys + {pubId}
                && (forall p | p in st.publications && p != pubId :: after.publications[p] == st.publications[p])
                && var p, t := after.publications[pubId], after.sets[id];
                   && p.setId == id && p.sourceRevisions == map[] && p.exclusions == map[]
                   && SameDraft(s, t) && t.current == pubId && t.previous == s.current
                   && t.signature == EmptyAggregate && t.updatedAt == stamp
  {
  }

  lemma WithdrawnOnce(st: Store, id: Id, pubId: Id, stamp: Stamp, later: Id, then_: Stamp)
    requires id in st.sets && pubId != ""
    ensures var after := Withdrawn(st, id, pubId, stamp).value; Withdrawn(after, id, later, then_) == Ok(after)
  {
  }

  // ---- editing a set ----

  /** What is asked of one member, with the defaults for what was left out. */
  predicate Acceptable(st: Store, p: Proposed) {
    var m := p.member;
    && m.sourceId in st.db.sources
    && (p.role == "" || p.role == "primary" || p.role == "backup" || p.role == "auxiliary")
    && 0 <= m.minScore <= 100 && 0 <= m.priority <= 10000 && 0 <= m.weight <= 10000
    && (m.timeoutMs == 0 || 100 <= m.timeoutMs <= 120000) && (m.maxConcurrency == 0 || 1 <= m.maxConcurrency <= 32)
    && forall x | x in m.mediaTypes :: x in MEDIA_TYPES
  }

  /** The member as it is stored: what was sent, and the defaults where nothing was. */
  predicate StoredAs(p: Proposed, m: Member) {
    var sent := p.member;
    && m.sourceId == sent.sourceId && m.priority == sent.priority && m.minScore == sent.minScore
    && m.mediaTypes == sent.mediaTypes && m.languages == sent.languages && m.regions == sent.regions
    && m.devices == sent.devices && m.networks == sent.networks
    && m.weight == (if sent.weight == 0 then 1 else sent.weight)
    && m.timeoutMs == (if sent.timeoutMs == 0 then 15000 else sent.timeoutMs)
    && m.maxConcurrency == (if sent.maxConcurrency == 0 then 2 else sent.maxConcurrency)
    && m.role == (if p.role == "backup" then Backup else if p.role == "auxiliary" then Auxiliary else Primary)
  }

  lemma MemberMeans(st: Store, p: Proposed)
    ensures p.member.sourceId in st.db.sources && InRange(p) <==> Acceptable(st, p)
    ensures InRange(p) ==> StoredAs(p, Defaulted(p))
  {
  }

  ghost predicate NoneTwice(ps: seq<Proposed>) {
    forall i, j | 0 <= i < j < |ps| :: ps[i].member.sourceId != ps[j].member.sourceId
  }

  /** Members are accepted exactly when no source comes twice and each is acceptable, and stored in their order. */
  lemma {:induction false} MembersMeans(st: Store, ps: seq<Proposed>)
    ensures Checked(st, ps).Ok? <==> NoneTwice(ps) && forall i | 0 <= i < |ps| :: Acceptable(st, ps[i])
    ensures Checked(st, ps).Ok? ==>
              |Checked(st, ps).value| == |ps| && forall i | 0 <= i < |ps| :: StoredAs(ps[i], Checked(st, ps).value[i])
  {
    if ps != [] {
      var n := |ps| - 1;
      MembersMeans(st, ps[..n]);
      MemberMeans(st, ps[n]);
    }
  }

  ghost predicate DraftOk(safe: SafeUrl, d: Draft) {
    && Trim(d.name) != "" && |d.name| <= 160 && |d.description| <= 2000 && |d.members| <= 500 && |d.rules| <= 2000
    && d.minAvailable >= 0 && 0 <= d.maxExcludedPercent <= 100
    && (forall i | 0 <= i < |d.rules| :: Readable(d.rules[i]) && LogoOk(safe, d.rules[i]))
    && forall i, j | 0 <= i < j < |d.rules| :: RuleKey(d.rules[i]) != RuleKey(d.rules[j])
  }

  lemma DraftMeans(safe: SafeUrl, d: Draft)
    ensures DraftFault(safe, d) == None <==> DraftOk(safe, d)
  {
    RulesAccepted(safe, d.rules);
  }

  /** A set is saved exactly when the draft and its members are in order and, for a set that is there, nobody has
      changed it since it was read. What is stored is what was sent, and an edit leaves the pointers where they were. */
  lemma SaveMeans(st: Store, safe: SafeUrl, id: Id, isNew: bool, d: Draft, stamp: Stamp)
    ensures Saved(st, safe, id, isNew, d, stamp).Ok? <==>
              && DraftOk(safe, d) && Checked(st, d.members).Ok?
              && (!isNew ==> id in st.sets && (d.expected.Some? ==> d.expected.value == st.sets[id].updatedAt))
    ensures Saved(st, safe, id, isNew, d, stamp).Ok? ==>
              var after := Saved(st, safe, id, isNew, d, stamp).value;
              && after.db == st.db && after.runtimes == st.runtimes && after.publications == st.publications
              && after.sets.Keys == st.sets.Keys + {id}
              && (forall k | k in st.sets && k != id :: after.sets[k] == st.sets[k])
              && var s := after.sets[id];
                 && s.name == d.name && s.description == d.description && s.rules == d.rules
                 && s.autoPublish == d.autoPublish && s.maxExcludedPercent == d.maxExcludedPercent
                 && s.minAvailable == (if d.minAvailable == 0 then 1 else d.minAvailable)
                 && s.members == Checked(st, d.members).value && s.updatedAt == stamp
                 && (isNew ==> s.current == "" && s.previous == "" && s.signature == Unsigned)
                 && (!isNew ==>
                       && s.current == st.sets[id].current && s.previous == st.sets[id].previous
                       && s.signature == st.sets[id].signature)
  {
    DraftMeans(safe, d);
  }

  // ---- membership of the aggregates ----

  lemma {:induction false} WithoutKeeps(ms: seq<Member>, id: Id, m: Member)
    ensures multiset(Without(ms, id))[m] == if m.sourceId == id then 0 else multiset(ms)[m]
  {
    if ms != [] {
      var n := |ms| - 1;
      WithoutKeeps(ms[..n], id, m);
      assert ms == ms[..n] + [ms[n]];
    }
  }

  /** What removing a source does to one set: an aggregate that held it loses it, and with it its signature, so that the
      next automatic publish is a new one; every other set is as it was. */
  lemma StripMeans(g: Grouping, sets: Sets, id: Id, stamp: Stamp, k: Id)
    ensures Stripped(g, sets, id, stamp).Keys == sets.Keys
    ensures k in sets ==>
              var s, t := sets[k], Stripped(g, sets, id, stamp)[k];
              if k in g.slugs && exists m | m in s.members :: m.sourceId == id then
                && t == s.(members := t.members, signature := Unsigned, updatedAt := stamp)
                && forall m :: multiset(t.members)[m] == if m.sourceId == id then 0 else multiset(s.members)[m]
              else t == s
  {
    if k in sets && k in g.slugs && exists m | m in sets[k].members :: m.sourceId == id {
      forall m
        ensures multiset(Without(sets[k].members, id))[m]
             == if m.sourceId == id then 0 else multiset(sets[k].members)[m]
      {
        WithoutKeeps(sets[k].members, id, m);
      }
    }
  }

  /** The member an aggregate gets for a source: first in its order, and without any filter. */
  predicate IsDefault(m: Member, id: Id) {
    && m.sourceId == id && m.priority == 100 && m.weight == 1 && m.role == Primary && m.minScore == 0
    && m.mediaTypes == [] && m.languages == [] && m.regions == [] && m.devices == [] && m.networks == []
    && m.timeoutMs == 15000 && m.maxConcurrency == 2
  }

  /** What adding a source does: it leaves every other aggregate, and the one of its type ends with it as a member of
      the system's defaults, unsigned. */
  lemma JoinMeans(g: Grouping, sets: Sets, id: Id, v: Source, stamp: Stamp, k: Id)
    ensures var after, slug := Upserted(g, sets, id, v, stamp), g.Of(v);
            && after.Keys == sets.Keys + {slug}
            && (k in sets && k != slug ==> after[k] == Stripped(g, sets, id, stamp)[k])
            && var t, ms := after[slug], MembersOf(Stripped(g, sets, id, stamp), slug);
               && t.members[..|t.members| - 1] == ms && t.signature == Unsigned && t.updatedAt == stamp
               && IsDefault(t.members[|ms|], id)
               && (slug in sets ==>
                     && t.current == sets[slug].current && t.previous == sets[slug].previous
                     && SameDraft(sets[slug].(members := t.members), t))
               && (slug !in sets ==>
                     && t.name == g.title(slug) && t.description == g.about(slug) && t.rules == []
                     && t.current == "" && t.previous == "" && t.autoPublish
                     && t.minAvailable == 1 && t.maxExcludedPercent == 100)
  {
    StripMeans(g, sets, id, stamp, g.Of(v));
  }

  /** Clearing empties every aggregate that has members and forgets its signature, and leaves the other sets alone. */
  lemma ClearMeans(g: Grouping, sets: Sets, stamp: Stamp, k: Id)
    ensures Cleared(g, sets, stamp).Keys == sets.Keys
    ensures k in sets ==>
              Cleared(g, sets, stamp)[k] == if k in g.slugs && sets[k].members != []
                                            then sets[k].(members := [], signature := Unsigned, updatedAt := stamp)
                                            else sets[k]
  {
  }

  /** A set whose members have changed is never taken for up to date: the next automatic publish is no repetition. */
  lemma ChangedMembersRepublish(st: Store, compile: Compiler, e: Event, k: Id)
    requires (e.Join? || e.Leave? || e.Clear?) && NewIds(st, e) && k in st.sets
    ensures var after := Do(st, compile, e);
            && k in after.sets
            && (after.sets[k].members != st.sets[k].members ==> !UpToDate(after, k))
  {
    match e
    case Join(g, id, v, stamp) =>
      JoinMeans(g, st.sets, id, v, stamp, k);
      StripMeans(g, st.sets, id, stamp, k);
    case Leave(g, id, stamp) => StripMeans(g, st.sets, id, stamp, k);
    case Clear(g, stamp) => ClearMeans(g, st.sets, stamp, k);
  }
}
