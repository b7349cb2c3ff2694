/** The publishing transactions as they run, and what any run of them keeps. */
module PublicationRuns {
  import opened Common
  import opened Model
  import opened Members
  import opened Sources
  import opened Publisher
  import opened Membership
  import opened Text

  function SourcesOf(ps: seq<Proposed>): set<Id> { set p | p in ps :: p.member.sourceId }

  ghost predicate CheckedSoFar(st: Store, ps: seq<Proposed>, seen: set<Id>, out: seq<Member>) {
    seen == SourcesOf(ps) && Checked(st, ps) == Ok(out)
  }

  lemma SeenNext(ps: seq<Proposed>, i: nat)
    requires i < |ps|
    ensures ps[i].member.sourceId in SourcesOf(ps[..i]) <==>
              exists k | 0 <= k < i :: ps[k].member.sourceId == ps[i].member.sourceId
    ensures SourcesOf(ps[..i + 1]) == SourcesOf(ps[..i]) + {ps[i].member.sourceId}
  {
    assert ps[..i + 1] == ps[..i] + [ps[i]];
    if ps[i].member.sourceId in SourcesOf(ps[..i]) {
      var k :| 0 <= k < i && ps[..i][k].member.sourceId == ps[i].member.sourceId;
      assert ps[k].member.sourceId == ps[i].member.sourceId;
    } else {
      assert forall k | 0 <= k < i :: ps[..i][k].member.sourceId in SourcesOf(ps[..i]);
    }
  }

  lemma CheckedNext(st: Store, ps: seq<Proposed>, i: nat, seen: set<Id>, out: seq<Member>)
    requires i < |ps| && CheckedSoFar(st, ps[..i], seen, out)
    ensures var id := ps[i].member.sourceId;
            if id in seen then Checked(st, ps[..i + 1]) == Err(DuplicateMember)
            else if id !in st.db.sources then Checked(st, ps[..i + 1]) == Err(Missing)
            else if !InRange(ps[i]) then Checked(st, ps[..i + 1]) == Err(BadMember)
            else CheckedSoFar(st, ps[..i + 1], seen + {id}, out + [Defaulted(ps[i])])
  {
    var more := ps[..i + 1];
    SeenNext(ps, i);
    assert more[..i] == ps[..i] && more[i] == ps[i] && forall k | 0 <= k < i :: more[k] == ps[k];
  }

  function RuleKeys(rules: seq<ChannelRule>): set<string> { set r | r in rules :: RuleKey(r) }

  lemma RulesNext(safe: SafeUrl, rules: seq<ChannelRule>, i: nat)
    requires i < |rules| && RuleFault(safe, rules[..i]) == None
    ensures var r := rules[i];
            RuleFault(safe, rules[..i + 1])
            == if !Readable(r) then Some(BadRule)
               else if RuleKey(r) in RuleKeys(rules[..i]) then Some(DuplicateRule)
               else if !LogoOk(safe, r) then Some(UnsafeLogo) else None
    ensures RuleKeys(rules[..i + 1]) == RuleKeys(rules[..i]) + {RuleKey(rules[i])}
  {
    var more := rules[..i + 1];
    assert more[..i] == rules[..i] && more == rules[..i] + [rules[i]];
    if RuleKey(rules[i]) in RuleKeys(rules[..i]) {
      var k :| 0 <= k < i && RuleKey(rules[..i][k]) == RuleKey(rules[i]);
      assert RuleKey(more[k]) == RuleKey(more[i]);
    } else {
      assert forall k | 0 <= k < i :: RuleKey(rules[..i][k]) in RuleKeys(rules[..i]);
    }
  }

  lemma {:induction false} RuleFaultStays(safe: SafeUrl, rules: seq<ChannelRule>, n: nat)
    requires n <= |rules| && RuleFault(safe, rules[..n]).Some?
    ensures RuleFault(safe, rules) == RuleFault(safe, rules[..n])
    decreases |rules| - n
  {
    if n < |rules| {
      assert rules[..n + 1][..n] == rules[..n];
      RuleFaultStays(safe, rules, n + 1);
    } else {
      assert rules[..n] == rules;
    }
  }

  /** Rules are accepted exactly when each is readable with a safe logo and no two say which
      channels they mean in one text. */
  lemma {:induction false} RulesAccepted(safe: SafeUrl, rules: seq<ChannelRule>)
    ensures RuleFault(safe, rules) == None <==>
              && (forall i | 0 <= i < |rules| :: Readable(rules[i]) && LogoOk(safe, rules[i]))
              && forall i, j | 0 <= i < j < |rules| :: RuleKey(rules[i]) != RuleKey(rules[j])
  {
    if rules != [] {
      RulesAccepted(safe, rules[..|rules| - 1]);
    }
  }

  /** validateChannelRules */
  method CheckRules(safe: SafeUrl, rules: seq<ChannelRule>) returns (e: Option<PublishError>)
    ensures e == if |rules| > 2000 then Some(TooManyRules) else RuleFault(safe, rules)
  {
    if |rules| > 2000 { return Some(TooManyRules); }
    var seen: set<string> := {};
    for i := 0 to |rules|
      invariant RuleFault(safe, rules[..i]) == None && seen == RuleKeys(rules[..i])
    {
      var r := rules[i];
      RulesNext(safe, rules, i);
      if !Readable(r) {
        RuleFaultStays(safe, rules, i + 1);
        return Some(BadRule);
      }
      if RuleKey(r) in seen {
        RuleFaultStays(safe, rules, i + 1);
        return Some(DuplicateRule);
      }
      seen := seen + {RuleKey(r)};
      if r.logo != "" && !safe(r.logo) {
        RuleFaultStays(safe, rules, i + 1);
        return Some(UnsafeLogo);
      }
    }
    assert rules[..|rules|] == rules;
    e := None;
  }

  /** The set and publication tables beside the rows a publication reads. */
  class Catalogue {
    var db: DB
    var runtimes: map<Id, Runtime>
    var sets: map<Id, SourceSet>
    var publications: map<Id, Publication>

    constructor (db: DB, runtimes: map<Id, Runtime>)
      ensures State() == Store(db, runtimes, map[], map[])
    {
      this.db, this.runtimes, sets, publications := db, runtimes, map[], map[];
    }

    function State(): Store
      reads this
    {
      Store(db, runtimes, sets, publications)
    }

    /** One member: the row's own reasons first, then its revision, its items and its runtime. */
    method Judge(m: Member) returns (r: Result<Choice, PublishError>)
      ensures r == Verdict(State(), m)
    {
      if m.sourceId !in db.sources { return Err(Missing); }
      var src := db.sources[m.sourceId];
      var reason := "";
      if !src.enabled {
        reason := "disabled";
      } else if src.active == "" {
        reason := "no_approved_revision";
      } else if src.health == Quarantined || src.health == Failing || src.health == Avoid
        || src.health == Health.Disabled {
        reason := HealthText(src.health);
      } else if src.score < m.minScore {
        reason := "below_minimum_health";
      } else if src.settings.mode == "catalog-only" {
        reason := "catalog_only";
      } else if |m.mediaTypes| > 0 && !Overlap(src.settings.mediaTypes, m.mediaTypes) {
        reason := "media_filtered";
      }
      if reason != "" { return Ok(Excluded(reason)); }
      if src.active !in db.revisions { return Err(Missing); }
      var revision := db.revisions[src.active];
      if revision.status != Approved { return Err(NotApprovedActive); }
      if (|m.languages| > 0 || |m.regions| > 0) && |Filtered(m.languages, m.regions, revision.normalized.items)| == 0 {
        return Ok(Excluded("item_filter_empty"));
      }
      var endpoint, driver := src.url, src.protocol;
      if src.settings.runtimeId != "" {
        if src.settings.runtimeId !in runtimes { return Err(Missing); }
        var rt := runtimes[src.settings.runtimeId];
        if !rt.healthy { return Ok(Excluded("runtime_unavailable")); }
        endpoint, driver := rt.url, rt.driver;
      }
      return Ok(Chosen(Selected(m.sourceId, src, src.active, revision.normalized, m, endpoint, driver)));
    }

    method Select(members: seq<Member>) returns (r: Result<Split, PublishError>)
      ensures r == Choose(State(), members)
    {
      var items: seq<Selected> := [];
      var excluded: map<Id, string> := map[];
      for i := 0 to |members|
        invariant Choose(State(), members[..i]) == Ok(Split(items, excluded))
      {
        var m := members[i];
        assert members[..i + 1][..i] == members[..i];
        var verdict := Judge(m);
        if verdict.Err? {
          SelectFails(members, i + 1);
          return Err(verdict.error);
        }
        match verdict.value
        case Chosen(item) => items := items + [item];
        case Excluded(reason) => excluded := excluded[m.sourceId := reason];
      }
      assert members[..|members|] == members;
      r := Ok(Split(items, excluded));
    }

    lemma {:induction false} SelectFails(members: seq<Member>, n: nat)
      requires n <= |members| && Choose(State(), members[..n]).Err?
      ensures Choose(State(), members) == Choose(State(), members[..n])
      decreases |members| - n
    {
      if n < |members| {
        assert members[..n + 1][..n] == members[..n];
        SelectFails(members, n + 1);
      } else {
        assert members[..n] == members;
      }
    }

    /** preparePublication when nothing is selected. */
    method PublishNothing(id: Id, excluded: map<Id, string>, automatic: bool, preview: bool, pubId: Id, stamp: Stamp)
      returns (o: Outcome)
      requires id in sets
      modifies this
      ensures o == NothingSelected(old(State()), id, excluded, automatic, preview)
      ensures State() == Settle(old(State()), id, o, pubId, stamp)
    {
      var s := sets[id];
      if IsAggregateSetID(id) && |s.members| == 0 && !preview {
        o := Published(Publication(id, map[], excluded, map[EMPTY_BUNDLE := s.name]), EmptyAggregate);
        publications := publications[pubId := o.p];
        sets := sets[id := s.(previous := s.current, current := pubId, signature := EmptyAggregate,
                              updatedAt := stamp)];
        return;
      }
      if automatic && s.current != "" {
        if s.current !in publications { return Failed(Missing); }
        return Kept(s.current);
      }
      o := Failed(Ineligible(excluded));
    }

    /** Publish, the automatic publish of a job, and PreviewPublication. */
    method Publish(compile: Compiler, id: Id, automatic: bool, preview: bool, pubId: Id, now: int, stamp: Stamp)
      returns (o: Outcome)
      requires pubId !in publications
      requires id in sets ==> Distinct(sets[id].members)
      modifies this
      ensures o == Prepare(old(State()), compile, id, automatic, preview, pubId, now)
      ensures State() == Settle(old(State()), id, o, pubId, stamp)
    {
      if id !in sets { return Failed(Missing); }
      var s := sets[id];
      var members := Sort(s.members);
      var chosen := Select(members);
      if chosen.Err? { return Failed(chosen.error); }
      var items, excluded := chosen.value.items, chosen.value.excluded;
      if |items| == 0 {
        o := PublishNothing(id, excluded, automatic, preview, pubId, stamp);
        return;
      }
      if automatic && HeldBack(s, |items|, |excluded|, |members|) {
        return Failed(HeldByPolicy);
      }
      var signature := SignatureOf(s, chosen.value);
      if automatic && signature == s.signature && s.current != "" {
        if s.current !in publications { return Failed(Missing); }
        return Kept(s.current);
      }
      var artifacts := compile(id, s.name, s.rules, items, pubId, now);
      if artifacts.None? { return Failed(CompileFailed); }
      var p := Publication(id, RevisionsOf(items), excluded, artifacts.value);
      if preview { return Previewed(p); }
      publications := publications[pubId := p];
      sets := sets[id := s.(signature := signature, previous := s.current, current := pubId, updatedAt := stamp)];
      o := Published(p, signature);
    }

    method Rollback(pubId: Id, stamp: Stamp) returns (e: Option<PublishError>)
      modifies this
      ensures match RolledBack(old(State()), pubId, stamp)
              case Ok(after) => e == None && State() == after
              case Err(why) => e == Some(why) && State() == old(State())
    {
      if pubId !in publications || publications[pubId].setId !in sets { return Some(Missing); }
      var id := publications[pubId].setId;
      var s := sets[id];
      if s.current == pubId { return None; }
      s := s.(previous := s.current);
      s := s.(current := pubId, updatedAt := stamp);
      sets := sets[id := s];
      e := None;
    }

    method Withdraw(id: Id, pubId: Id, stamp: Stamp) returns (e: Option<PublishError>)
      modifies this
      ensures match Withdrawn(old(State()), id, pubId, stamp)
              case Ok(after) => e == None && State() == after
              case Err(why) => e == Some(why) && State() == old(State())
    {
      if id !in sets { return Some(Missing); }
      var s := sets[id];
      if |s.members| != 0 { return None; }
      if s.signature == EmptyAggregate && s.current != "" { return None; }
      publications := publications[pubId := Publication(id, map[], map[], map[EMPTY_BUNDLE := s.name])];
      sets := sets[id := s.(previous := s.current, current := pubId, signature := EmptyAggregate, updatedAt := stamp)];
      e := None;
    }

    method CheckMembers(ps: seq<Proposed>) returns (r: Result<seq<Member>, PublishError>)
      ensures r == Checked(State(), ps)
    {
      var seen: set<Id> := {};
      var out: seq<Member> := [];
      for i := 0 to |ps|
        invariant CheckedSoFar(State(), ps[..i], seen, out)
      {
        var p := ps[i];
        var m := p.member;
        CheckedNext(State(), ps, i, seen, out);
        if m.sourceId in seen || m.sourceId !in db.sources || !InRange(p) {
          CheckFails(ps, i + 1);
          return Err(if m.sourceId in seen then DuplicateMember
                     else if m.sourceId !in db.sources then Missing
                     else BadMember);
        }
        seen := seen + {m.sourceId};
        m := m.(role := RoleOf(p.role).value);
        if m.weight == 0 { m := m.(weight := 1); }
        if m.timeoutMs == 0 { m := m.(timeoutMs := 15000); }
        if m.maxConcurrency == 0 { m := m.(maxConcurrency := 2); }
        out := out + [m];
      }
      assert ps[..|ps|] == ps;
      r := Ok(out);
    }

    lemma {:induction false} CheckFails(ms: seq<Proposed>, n: nat)
      requires n <= |ms| && Checked(State(), ms[..n]).Err?
      ensures Checked(State(), ms) == Checked(State(), ms[..n])
      decreases |ms| - n
    {
      if n < |ms| {
        assert ms[..n + 1][..n] == ms[..n];
        CheckFails(ms, n + 1);
      } else {
        assert ms[..n] == ms;
      }
    }

    method SaveSet(safe: SafeUrl, id: Id, isNew: bool, d: Draft, stamp: Stamp) returns (e: Option<PublishError>)
      modifies this
      ensures match Saved(old(State()), safe, id, isNew, d, stamp)
              case Ok(after) => e == None && State() == after
              case Err(why) => e == Some(why) && State() == old(State())
    {
      var available := d.minAvailable;
      e := CheckDraft(safe, d);
      if e.Some? { return; }
      if available == 0 { available := 1; }
      var s := SourceSet(d.name, d.description, [], d.rules, d.autoPublish, available, d.maxExcludedPercent, Unsigned,
                         "", "", stamp);
      if !isNew {
        if id !in sets { return Some(Missing); }
        if d.expected.Some? && d.expected.value != sets[id].updatedAt { return Some(Stale); }
        s := s.(current := sets[id].current, previous := sets[id].previous, signature := sets[id].signature);
      }
      var checked := CheckMembers(d.members);
      if checked.Err? { return Some(checked.error); }
      sets := sets[id := s.(members := checked.value)];
      e := None;
    }
  }

  method CheckDraft(safe: SafeUrl, d: Draft) returns (e: Option<PublishError>)
    ensures e == DraftFault(safe, d)
  {
    if Trim(d.name) == "" || |d.name| > 160 { return Some(BadName); }
    if |d.description| > 2000 || |d.members| > 500 { return Some(TooLarge); }
    e := CheckRules(safe, d.rules);
    if e.Some? { return; }
    var available := d.minAvailable;
    if available == 0 { available := 1; }
    if available < 1 || d.maxExcludedPercent < 0 || d.maxExcludedPercent > 100 { return Some(BadLimits); }
  }

  // ---- a publication accounts for every member ----

  function IdsOf(items: seq<Selected>): seq<Id> {
    if items == [] then [] else IdsOf(items[..|items| - 1]) + [items[|items| - 1].id]
  }

  /** The members that were not excluded, in their order. */
  function Remaining(members: seq<Member>, excluded: map<Id, string>): seq<Id> {
    if members == [] then []
    else
      var n := |members| - 1;
      Remaining(members[..n], excluded) + if members[n].sourceId in excluded then [] else [members[n].sourceId]
  }

  ghost predicate Eligible(st: Store, x: Selected) {
    && x.id in st.db.sources && x.source == st.db.sources[x.id] && x.source.enabled
    && x.source.active == x.revision != ""
    && x.revision in st.db.revisions && st.db.revisions[x.revision].status == Approved
    && x.source.health !in {Quarantined, Failing, Avoid, Health.Disabled} && x.source.score >= x.member.minScore
    && (x.source.settings.runtimeId != "" ==>
          x.source.settings.runtimeId in st.runtimes && st.runtimes[x.source.settings.runtimeId].healthy)
  }

  lemma {:induction false} RemainingAgree(members: seq<Member>, a: map<Id, string>, b: map<Id, string>)
    requires forall m | m in members :: m.sourceId in a <==> m.sourceId in b
    ensures Remaining(members, a) == Remaining(members, b)
  {
    if members != [] {
      RemainingAgree(members[..|members| - 1], a, b);
    }
  }

  lemma VerdictEligible(st: Store, m: Member)
    requires Verdict(st, m).Ok? && Verdict(st, m).value.Chosen?
    ensures var x := Verdict(st, m).value.item; x.id == m.sourceId && x.member == m && Eligible(st, x)
  {
  }

  lemma {:induction false} SelectedAreEligible(st: Store, members: seq<Member>)
    requires Choose(st, members).Ok?
    ensures forall x | x in Choose(st, members).value.items ::
              Eligible(st, x) && x.member in members && x.id == x.member.sourceId
  {
    if members != [] {
      var n := |members| - 1;
      SelectedAreEligible(st, members[..n]);
      if Verdict(st, members[n]).value.Chosen? {
        VerdictEligible(st, members[n]);
      }
    }
  }

  lemma {:induction false} ExcludedAreMembers(st: Store, members: seq<Member>)
    requires Choose(st, members).Ok?
    ensures forall id | id in Choose(st, members).value.excluded ::
              exists i :: 0 <= i < |members| && members[i].sourceId == id
  {
    if members != [] {
      var n := |members| - 1;
      ExcludedAreMembers(st, members[..n]);
      forall id | id in Choose(st, members).value.excluded
        ensures exists i :: 0 <= i < |members| && members[i].sourceId == id
      {
        if id in Choose(st, members[..n]).value.excluded {
          var i :| 0 <= i < n && members[..n][i].sourceId == id;
          assert members[i].sourceId == id;
        } else {
          assert members[n].sourceId == id;
        }
      }
    }
  }

  /** Selected and excluded ids partition the members, in the members' order;
      SelectedAreEligible says who is selected. */
  lemma {:induction false} ChoiceIsAPartition(st: Store, members: seq<Member>)
    requires Distinct(members) && Choose(st, members).Ok?
    ensures var c := Choose(st, members).value;
            IdsOf(c.items) == Remaining(members, c.excluded) && |c.items| + |c.excluded| == |members|
  {
    if members != [] {
      var n := |members| - 1;
      ChoiceIsAPartition(st, members[..n]);
      ExcludedAreMembers(st, members[..n]);
      var before, after := Choose(st, members[..n]).value, Choose(st, members).value;
      assert members[n].sourceId !in before.excluded;
      RemainingAgree(members[..n], before.excluded, after.excluded);
      if Verdict(st, members[n]).value.Chosen? {
        VerdictEligible(st, members[n]);
        assert after.items[..|after.items| - 1] == before.items;
      } else {
        assert after.excluded.Keys == before.excluded.Keys + {members[n].sourceId};
      }
    }
  }

  function SourceIds(members: seq<Member>): set<Id> { set m | m in members :: m.sourceId }

  lemma SortedKeepsIds(ms: seq<Member>)
    requires Distinct(ms)
    ensures Distinct(Sorted(ms)) && SourceIds(Sorted(ms)) == SourceIds(ms)
  {
    SortedIsOrdered(ms);
    SameContents(ms, Sorted(ms));
  }

  lemma SameContents(ms: seq<Member>, out: seq<Member>)
    requires Distinct(ms) && Ordered(out) && multiset(out) == multiset(ms)
    ensures Distinct(out) && SourceIds(out) == SourceIds(ms)
  {
    SameElements(out, ms);
    forall i, j | 0 <= i < j < |out| ensures out[i].sourceId != out[j].sourceId {
      assert Before(out[i], out[j]) && out[i] in out && out[j] in out;
      var p :| 0 <= p < |ms| && ms[p] == out[i];
      var q :| 0 <= q < |ms| && ms[q] == out[j];
      BeforeTotal(out[i], out[i]);
    }
  }

  ghost predicate ActiveAndApproved(db: DB, id: Id, revision: Id) {
    && id in db.sources && db.sources[id].enabled && db.sources[id].active == revision
    && revision in db.revisions && db.revisions[revision].status == Approved
  }

  ghost predicate AllActive(db: DB, revisions: map<Id, Id>) {
    forall id | id in revisions :: ActiveAndApproved(db, id, revisions[id])
  }

  lemma SourceIdsNext(members: seq<Member>, n: nat)
    requires Distinct(members) && n < |members|
    ensures SourceIds(members[..n + 1]) == SourceIds(members[..n]) + {members[n].sourceId}
            && members[n].sourceId !in SourceIds(members[..n])
  {
    assert members[..n + 1] == members[..n] + [members[n]];
  }

  lemma RevisionsNext(items: seq<Selected>, item: Selected)
    ensures RevisionsOf(items + [item]) == RevisionsOf(items)[item.id := item.revision]
  {
    assert (items + [item])[..|items|] == items;
  }

  ghost predicate Accounts(db: DB, ids: set<Id>, c: Split) {
    var revisions := RevisionsOf(c.items);
    Splits(ids, revisions, c.excluded) && |revisions| == |c.items| && AllActive(db, revisions)
  }

  lemma AccountsNext(db: DB, ids: set<Id>, c: Split, id: Id, choice: Choice)
    requires Accounts(db, ids, c) && id !in ids
    requires choice.Chosen? ==> choice.item.id == id && ActiveAndApproved(db, id, choice.item.revision)
    ensures Accounts(db, ids + {id},
                     if choice.Chosen? then Split(c.items + [choice.item], c.excluded)
                     else Split(c.items, c.excluded[id := choice.reason]))
  {
    match choice
    case Chosen(item) =>
      SplitsNext(ids, RevisionsOf(c.items), c.excluded, id, item.revision);
      RevisionsNext(c.items, item);
    case Excluded(reason) =>
      SplitsElse(ids, RevisionsOf(c.items), c.excluded, id, reason);
  }

  lemma {:induction false} ChoiceAccounts(st: Store, members: seq<Member>, n: nat)
    requires Distinct(members) && n <= |members| && Choose(st, members[..n]).Ok?
    ensures Accounts(st.db, SourceIds(members[..n]), Choose(st, members[..n]).value)
  {
    if n > 0 {
      var m := members[n - 1];
      assert members[..n][..n - 1] == members[..n - 1];
      ChoiceAccounts(st, members, n - 1);
      SourceIdsNext(members, n - 1);
      var choice := Verdict(st, m).value;
      if choice.Chosen? { VerdictEligible(st, m); }
      AccountsNext(st.db, SourceIds(members[..n - 1]), Choose(st, members[..n - 1]).value, m.sourceId, choice);
    }
  }

  ghost predicate Stands(s: SourceSet, c: Split, o: Outcome, automatic: bool) {
    o.Published? || o.Previewed? ==>
      && o.p.sourceRevisions == RevisionsOf(c.items) && o.p.exclusions == c.excluded
      && (automatic && o.Published? && o.signature != EmptyAggregate ==>
            c.items != [] && !HeldBack(s, |c.items|, |c.excluded|, |s.members|))
  }

  lemma NothingStands(st: Store, id: Id, c: Split, automatic: bool, preview: bool)
    requires id in st.sets && c.items == []
    ensures Stands(st.sets[id], c, NothingSelected(st, id, c.excluded, automatic, preview), automatic)
  {
  }

  lemma SomethingStands(st: Store, compile: Compiler, id: Id, c: Split, automatic: bool, preview: bool, pubId: Id,
                        now: int)
    requires id in st.sets && c.items != []
    ensures Stands(st.sets[id], c, SomethingSelected(st, compile, id, c, automatic, preview, pubId, now), automatic)
  {
  }

  lemma PreparedStands(st: Store, compile: Compiler, id: Id, automatic: bool, preview: bool, pubId: Id, now: int)
    requires id in st.sets
    ensures var o := Prepare(st, compile, id, automatic, preview, pubId, now);
            var chosen := Choose(st, Sorted(st.sets[id].members));
            if chosen.Ok? then Stands(st.sets[id], chosen.value, o, automatic) else o.Failed?
  {
    var chosen := Choose(st, Sorted(st.sets[id].members));
    if chosen.Ok? {
      if chosen.value.items == [] {
        NothingStands(st, id, chosen.value, automatic, preview);
      } else {
        SomethingStands(st, compile, id, chosen.value, automatic, preview, pubId, now);
      }
    }
  }

  ghost predicate FullyAccounted(db: DB, s: SourceSet, p: Publication) {
    Splits(SourceIds(s.members), p.sourceRevisions, p.exclusions) && AllActive(db, p.sourceRevisions)
  }

  ghost predicate WithinPolicy(s: SourceSet, p: Publication) {
    && s.autoPublish && |p.sourceRevisions| > 0 && |p.sourceRevisions| >= s.minAvailable
    && |p.exclusions| * 100 <= s.maxExcludedPercent * |s.members|
  }

  lemma OutcomeAccounts(db: DB, s: SourceSet, c: Split, o: Outcome, automatic: bool)
    requires Stands(s, c, o, automatic) && Accounts(db, SourceIds(s.members), c) && (o.Published? || o.Previewed?)
    ensures FullyAccounted(db, s, o.p)
            && (automatic && o.Published? && o.signature != EmptyAggregate ==> WithinPolicy(s, o.p))
  {
  }

  /** A publication, previewed or stored, accounts for every member once, with its approved active revision or with a
      reason; and whatever automation stores, except an empty bundle, keeps to the availability policy of its set. */
  lemma PublicationAccounts(st: Store, compile: Compiler, id: Id, automatic: bool, preview: bool, pubId: Id, now: int,
                            o: Outcome)
    requires id in st.sets && Distinct(st.sets[id].members)
    requires o == Prepare(st, compile, id, automatic, preview, pubId, now) && (o.Published? || o.Previewed?)
    ensures FullyAccounted(st.db, st.sets[id], o.p)
    ensures automatic && o.Published? && o.signature != EmptyAggregate ==> WithinPolicy(st.sets[id], o.p)
  {
    var s := st.sets[id];
    var ms := Sorted(s.members);
    PreparedStands(st, compile, id, automatic, preview, pubId, now);
    SortedKeepsIds(s.members);
    assert ms[..|ms|] == ms;
    ChoiceAccounts(st, ms, |ms|);
    OutcomeAccounts(st.db, s, Choose(st, ms).value, o, automatic);
  }

  // ---- pointers over any run ----

  datatype Event =
    | Publish(id: Id, automatic: bool, preview: bool, pubId: Id, now: int, stamp: Stamp)
    | Rollback(pubId: Id, stamp: Stamp)
    | Withdraw(id: Id, pubId: Id, stamp: Stamp)
    | Save(id: Id, isNew: bool, d: Draft, safe: SafeUrl, stamp: Stamp)
    | Join(g: Grouping, id: Id, v: Source, stamp: Stamp)   // upsertAggregateMember
    | Leave(g: Grouping, id: Id, stamp: Stamp)             // removeFromAggregates, and the strip of a deletion
    | Clear(g: Grouping, stamp: Stamp)                     // the clearing of ReconcileAggregates
    | Rows(db: DB, runtimes: map<Id, Runtime>)             // the tables of sources, revisions and runtimes become these

  function Or(r: Result<Store, PublishError>, st: Store): Store { if r.Ok? then r.value else st }

  function Do(st: Store, compile: Compiler, e: Event): Store {
    match e
    case Publish(id, automatic, preview, pubId, now, stamp) =>
      Settle(st, id, Prepare(st, compile, id, automatic, preview, pubId, now), pubId, stamp)
    case Rollback(pubId, stamp) => Or(RolledBack(st, pubId, stamp), st)
    case Withdraw(id, pubId, stamp) => Or(Withdrawn(st, id, pubId, stamp), st)
    case Save(id, isNew, d, safe, stamp) => Or(Saved(st, safe, id, isNew, d, stamp), st)
    case Join(g, id, v, stamp) => st.(sets := Upserted(g, st.sets, id, v, stamp))
    case Leave(g, id, stamp) => st.(sets := Stripped(g, st.sets, id, stamp))
    case Clear(g, stamp) => st.(sets := Cleared(g, st.sets, stamp))
    case Rows(db, runtimes) => st.(db := db, runtimes := runtimes)
  }

  /** Identifiers are new when they are made, and the bucket of a source is one of the aggregates
      (Aggregates.AggregationIsSound). */
  predicate NewIds(st: Store, e: Event) {
    match e
    case Publish(_, _, _, pubId, _, _) => pubId !in st.publications && pubId != ""
    case Withdraw(_, pubId, _) => pubId !in st.publications && pubId != ""
    case Save(id, isNew, _, _, _) => isNew ==> id !in st.sets
    case Join(g, _, v, _) => g.Of(v) in g.slugs
    case _ => true
  }

  predicate Points(st: Store, id: Id, p: Id) { p == "" || (p in st.publications && st.publications[p].setId == id) }

  ghost predicate PointersOk(st: Store) {
    && "" !in st.publications
    && forall id | id in st.sets ::
         Points(st, id, st.sets[id].current) && Points(st, id, st.sets[id].previous) && Distinct(st.sets[id].members)
  }

  lemma {:induction false} CheckedDistinct(st: Store, ms: seq<Proposed>)
    requires Checked(st, ms).Ok?
    ensures Distinct(Checked(st, ms).value) && |Checked(st, ms).value| == |ms|
    ensures forall i | 0 <= i < |ms| ::
              Checked(st, ms).value[i].sourceId == ms[i].member.sourceId && ms[i].member.sourceId in st.db.sources
  {
    if ms != [] {
      CheckedDistinct(st, ms[..|ms| - 1]);
    }
  }

  /** What is stored belongs to its set; what is kept is the set's current publication. */
  ghost predicate OutcomeFor(st: Store, id: Id, o: Outcome, automatic: bool, preview: bool) {
    && (o.Published? ==> o.p.setId == id && !preview)
    && (o.Kept? ==> automatic && id in st.sets && o.id == st.sets[id].current && o.id in st.publications)
  }

  lemma NothingFor(st: Store, id: Id, excluded: map<Id, string>, automatic: bool, preview: bool)
    requires id in st.sets
    ensures OutcomeFor(st, id, NothingSelected(st, id, excluded, automatic, preview), automatic, preview)
  {
  }

  lemma SomethingFor(st: Store, compile: Compiler, id: Id, c: Split, automatic: bool, preview: bool, pubId: Id,
                     now: int)
    requires id in st.sets
    ensures OutcomeFor(st, id, SomethingSelected(st, compile, id, c, automatic, preview, pubId, now), automatic,
                       preview)
  {
  }

  lemma PreparedFor(st: Store, compile: Compiler, id: Id, automatic: bool, preview: bool, pubId: Id, now: int)
    ensures OutcomeFor(st, id, Prepare(st, compile, id, automatic, preview, pubId, now), automatic, preview)
  {
    if id in st.sets && Choose(st, Sorted(st.sets[id].members)).Ok? {
      var c := Choose(st, Sorted(st.sets[id].members)).value;
      if c.items == [] {
        NothingFor(st, id, c.excluded, automatic, preview);
      } else {
        SomethingFor(st, compile, id, c, automatic, preview, pubId, now);
      }
    }
  }

  /** No publication is altered or lost. */
  ghost predicate Keeps(was: Store, now: Store) {
    forall p | p in was.publications :: p in now.publications && now.publications[p] == was.publications[p]
  }

  lemma SettledPointers(st: Store, id: Id, o: Outcome, pubId: Id, stamp: Stamp)
    requires PointersOk(st) && pubId !in st.publications && pubId != "" && (o.Published? ==> o.p.setId == id)
    ensures PointersOk(Settle(st, id, o, pubId, stamp)) && Keeps(st, Settle(st, id, o, pubId, stamp))
  {
  }

  lemma RolledBackPointers(st: Store, pubId: Id, stamp: Stamp)
    requires PointersOk(st) && RolledBack(st, pubId, stamp).Ok?
    ensures PointersOk(RolledBack(st, pubId, stamp).value) && Keeps(st, RolledBack(st, pubId, stamp).value)
  {
  }

  lemma WithdrawnPointers(st: Store, id: Id, pubId: Id, stamp: Stamp)
    requires PointersOk(st) && pubId !in st.publications && pubId != "" && Withdrawn(st, id, pubId, stamp).Ok?
    ensures PointersOk(Withdrawn(st, id, pubId, stamp).value) && Keeps(st, Withdrawn(st, id, pubId, stamp).value)
  {
  }

  lemma SavedPointers(st: Store, safe: SafeUrl, id: Id, isNew: bool, d: Draft, stamp: Stamp)
    requires PointersOk(st) && Saved(st, safe, id, isNew, d, stamp).Ok?
    ensures PointersOk(Saved(st, safe, id, isNew, d, stamp).value)
            && Keeps(st, Saved(st, safe, id, isNew, d, stamp).value)
  {
    CheckedDistinct(st, d.members);
  }

  lemma LeftPointers(st: Store, g: Grouping, id: Id, stamp: Stamp)
    requires PointersOk(st)
    ensures PointersOk(st.(sets := Stripped(g, st.sets, id, stamp)))
  {
    forall k | k in st.sets ensures Distinct(Without(st.sets[k].members, id)) {
      WithoutIs(st.sets[k].members, id);
    }
  }

  lemma JoinedDistinct(g: Grouping, sets: Sets, id: Id, v: Source, stamp: Stamp)
    requires g.Of(v) in g.slugs && Distinct(MembersOf(sets, g.Of(v)))
    ensures Distinct(Upserted(g, sets, id, v, stamp)[g.Of(v)].members)
  {
    var was, left := MembersOf(sets, g.Of(v)), MembersOf(Stripped(g, sets, id, stamp), g.Of(v));
    WithoutIs(was, id);
    assert Distinct(left) && forall m | m in left :: m.sourceId != id;
    assert Distinct(left + [AggregateMember(id)]);
  }

  lemma JoinedPointers(st: Store, g: Grouping, id: Id, v: Source, stamp: Stamp)
    requires PointersOk(st) && g.Of(v) in g.slugs
    ensures PointersOk(st.(sets := Upserted(g, st.sets, id, v, stamp)))
  {
    LeftPointers(st, g, id, stamp);
    JoinedDistinct(g, st.sets, id, v, stamp);
  }

  /** Every transaction leaves both pointers of every set on a publication of that set, and
      never alters a publication. */
  lemma PointersKept(st: Store, compile: Compiler, e: Event)
    requires PointersOk(st) && NewIds(st, e)
    ensures PointersOk(Do(st, compile, e)) && Keeps(st, Do(st, compile, e))
  {
    match e
    case Publish(id, automatic, preview, pubId, now, stamp) =>
      PreparedFor(st, compile, id, automatic, preview, pubId, now);
      SettledPointers(st, id, Prepare(st, compile, id, automatic, preview, pubId, now), pubId, stamp);
    case Rollback(pubId, stamp) => if RolledBack(st, pubId, stamp).Ok? { RolledBackPointers(st, pubId, stamp); }
    case Withdraw(id, pubId, stamp) =>
      if Withdrawn(st, id, pubId, stamp).Ok? {
        WithdrawnPointers(st, id, pubId, stamp);
      }
    case Save(id, isNew, d, safe, stamp) =>
      if Saved(st, safe, id, isNew, d, stamp).Ok? { SavedPointers(st, safe, id, isNew, d, stamp); }
    case Join(g, id, v, stamp) => JoinedPointers(st, g, id, v, stamp);
    case Leave(g, id, stamp) => LeftPointers(st, g, id, stamp);
    case Clear(g, stamp) =>
    case Rows(db, runtimes) =>
  }

  /** Previews and publishes that fail change nothing at all. */
  lemma OnlyPublishingChanges(st: Store, compile: Compiler, e: Event)
    requires e.Publish? && (e.preview || Prepare(st, compile, e.id, e.automatic, e.preview, e.pubId, e.now).Failed?)
    ensures Do(st, compile, e) == st
  {
    PreparedFor(st, compile, e.id, e.automatic, e.preview, e.pubId, e.now);
  }

  function Run(st: Store, compile: Compiler, es: seq<Event>): Store {
    if es == [] then st else Do(Run(st, compile, es[..|es| - 1]), compile, es[|es| - 1])
  }

  ghost predicate FreshIds(st: Store, compile: Compiler, es: seq<Event>) {
    forall i | 0 <= i < |es| :: NewIds(Run(st, compile, es[..i]), es[i])
  }

  lemma FreshBefore(st: Store, compile: Compiler, es: seq<Event>)
    requires FreshIds(st, compile, es) && es != []
    ensures FreshIds(st, compile, es[..|es| - 1]) && NewIds(Run(st, compile, es[..|es| - 1]), es[|es| - 1])
  {
    var n := |es| - 1;
    forall i | 0 <= i < n ensures NewIds(Run(st, compile, es[..n][..i]), es[..n][i]) {
      assert es[..n][..i] == es[..i];
    }
  }

  /** In any run from an empty store both pointers of every set name existing publications of that set,
      and a publication never changes once it exists. */
  lemma {:induction false} PointersInRun(st: Store, compile: Compiler, es: seq<Event>)
    requires PointersOk(st) && FreshIds(st, compile, es)
    ensures PointersOk(Run(st, compile, es)) && Keeps(st, Run(st, compile, es))
  {
    if es != [] {
      var n := |es| - 1;
      FreshBefore(st, compile, es);
      PointersInRun(st, compile, es[..n]);
      PointersKept(Run(st, compile, es[..n]), compile, es[n]);
    }
  }

  // ---- automatic publication with unchanged inputs ----

  /** Only automatic publishes of one set, rollbacks and previews: nothing that changes an input. */
  predicate Idle(e: Event, id: Id) {
    match e
    case Publish(i, automatic, preview, _, _, _) => preview || (automatic && i == id)
    case Rollback(_, _) => true
    case _ => false
  }

  /** Something of the set can be published. */
  ghost predicate Selects(st: Store, id: Id) {
    id in st.sets && Choose(st, Sorted(st.sets[id].members)).Ok?
      && Choose(st, Sorted(st.sets[id].members)).value.items != []
  }

  /** The set was last published from exactly the inputs it would be published from now, and something is selected. */
  ghost predicate UpToDate(st: Store, id: Id) {
    && id in st.sets && st.sets[id].current != ""
    && Choose(st, Sorted(st.sets[id].members)).Ok? && Choose(st, Sorted(st.sets[id].members)).value.items != []
    && st.sets[id].signature == SignatureOf(st.sets[id], Choose(st, Sorted(st.sets[id].members)).value)
  }

  /** The rows, and everything of the set that enters its signature, are those of the other store. */
  ghost predicate SameInputs(a: Store, b: Store, id: Id) {
    && a.db == b.db && a.runtimes == b.runtimes && id in a.sets && id in b.sets
    && var s, t := a.sets[id], b.sets[id];
       s.name == t.name && s.description == t.description && s.members == t.members && s.rules == t.rules
       && s.autoPublish == t.autoPublish && s.minAvailable == t.minAvailable
       && s.maxExcludedPercent == t.maxExcludedPercent
  }

  lemma {:induction false} SameChoice(a: Store, b: Store, ms: seq<Member>)
    requires a.db == b.db && a.runtimes == b.runtimes
    ensures Choose(a, ms) == Choose(b, ms)
  {
    if ms != [] {
      SameChoice(a, b, ms[..|ms| - 1]);
    }
  }

  /** With something selected, an automatic publish of a set that is up to date keeps what there is. */
  lemma AutomaticOutcome(st: Store, compile: Compiler, id: Id, pubId: Id, now: int)
    requires Selects(st, id)
    ensures var o, s := Prepare(st, compile, id, true, false, pubId, now), st.sets[id];
            o.Published? ==>
              && !UpToDate(st, id) && o.p.setId == id
              && o.signature == SignatureOf(s, Choose(st, Sorted(s.members)).value)
  {
  }

  lemma MovedInputs(st: Store, id: Id, pubId: Id, signature: Signature, stamp: Stamp, c: Split)
    requires id in st.sets
    ensures var s, t := st.sets[id], Moved(st.sets[id], pubId, signature, stamp);
            t.current == pubId && t.signature == signature && t.members == s.members
              && SignatureOf(t, c) == SignatureOf(s, c)
  {
  }

  lemma SettledIsUpToDate(st: Store, id: Id, o: Outcome, pubId: Id, stamp: Stamp, c: Split)
    requires Selects(st, id) && Choose(st, Sorted(st.sets[id].members)) == Ok(c) && o.Published? && pubId != ""
    requires o.signature == SignatureOf(st.sets[id], c)
    ensures var after := Settle(st, id, o, pubId, stamp);
            UpToDate(after, id) && SameInputs(st, after, id)
              && after.publications.Keys == st.publications.Keys + {pubId}
  {
    var after := Settle(st, id, o, pubId, stamp);
    MovedInputs(st, id, pubId, o.signature, stamp, c);
    SameChoice(st, after, Sorted(st.sets[id].members));
    assert after.sets[id] == Moved(st.sets[id], pubId, o.signature, stamp);
  }

  lemma AutomaticStep(st: Store, compile: Compiler, e: Event, id: Id)
    requires e.Publish? && Idle(e, id) && Selects(st, id) && NewIds(st, e)
    ensures Do(st, compile, e) == st
         || (!UpToDate(st, id) && UpToDate(Do(st, compile, e), id) && SameInputs(st, Do(st, compile, e), id)
             && Do(st, compile, e).publications.Keys == st.publications.Keys + {e.pubId})
  {
    PreparedFor(st, compile, e.id, e.automatic, e.preview, e.pubId, e.now);
    if !e.preview {
      AutomaticOutcome(st, compile, id, e.pubId, e.now);
      var o := Prepare(st, compile, id, true, false, e.pubId, e.now);
      if o.Published? {
        SettledIsUpToDate(st, id, o, e.pubId, e.stamp, Choose(st, Sorted(st.sets[id].members)).value);
      }
    }
  }

  lemma RollbackStep(st: Store, compile: Compiler, e: Event, id: Id)
    requires e.Rollback? && id in st.sets && PointersOk(st)
    ensures SameInputs(st, Do(st, compile, e), id) && Do(st, compile, e).publications == st.publications
    ensures UpToDate(st, id) ==> UpToDate(Do(st, compile, e), id)
    ensures e.pubId in st.publications && st.publications[e.pubId].setId == id ==>
              Do(st, compile, e).sets[id].current == e.pubId
  {
    SameChoice(st, Do(st, compile, e), Sorted(st.sets[id].members));
  }

  lemma IdleStep(st: Store, compile: Compiler, e: Event, id: Id)
    requires Idle(e, id) && Selects(st, id) && PointersOk(st) && NewIds(st, e)
    ensures SameInputs(st, Do(st, compile, e), id)
    ensures UpToDate(st, id) ==> UpToDate(Do(st, compile, e), id) && Do(st, compile, e).publications == st.publications
    ensures !UpToDate(st, id) && Do(st, compile, e).publications != st.publications ==>
      UpToDate(Do(st, compile, e), id) && e.Publish?
        && Do(st, compile, e).publications.Keys == st.publications.Keys + {e.pubId}
  {
    if e.Publish? {
      AutomaticStep(st, compile, e, id);
    } else {
      RollbackStep(st, compile, e, id);
    }
  }

  /** At most one publication more, and if there is one, the set is up to date. */
  ghost predicate OneMore(st: Store, now: Store, id: Id) {
    && PointersOk(now) && SameInputs(st, now, id) && Selects(now, id)
    && |st.publications| <= |now.publications| <= |st.publications| + 1
    && (|now.publications| > |st.publications| ==> UpToDate(now, id))
    && (UpToDate(st, id) ==> UpToDate(now, id) && now.publications == st.publications)
  }

  lemma OneMoreStep(st: Store, mid: Store, compile: Compiler, e: Event, id: Id)
    requires id in st.sets && OneMore(st, mid, id) && NewIds(mid, e) && Idle(e, id)
    ensures OneMore(st, Do(mid, compile, e), id)
  {
    IdleStep(mid, compile, e, id);
    PointersKept(mid, compile, e);
    var after := Do(mid, compile, e);
    SameChoice(mid, after, Sorted(mid.sets[id].members));
    assert after.publications == mid.publications || |after.publications.Keys| == |mid.publications.Keys| + 1;
  }

  /** Whatever automatic publishes, rollbacks and previews come, unchanged inputs create at most one publication. */
  lemma {:induction false} AtMostOnePublication(st: Store, compile: Compiler, es: seq<Event>, id: Id)
    requires PointersOk(st) && FreshIds(st, compile, es) && Selects(st, id) && forall e | e in es :: Idle(e, id)
    ensures OneMore(st, Run(st, compile, es), id)
  {
    if es != [] {
      var n := |es| - 1;
      FreshBefore(st, compile, es);
      AtMostOnePublication(st, compile, es[..n], id);
      assert es[n] in es;
      OneMoreStep(st, Run(st, compile, es[..n]), compile, es[n], id);
    }
  }

  lemma {:induction false} AutomaticPublishesRest(st: Store, compile: Compiler, es: seq<Event>, id: Id)
    requires PointersOk(st) && UpToDate(st, id) && FreshIds(st, compile, es)
    requires forall e | e in es :: e.Publish? && Idle(e, id)
    ensures Run(st, compile, es) == st
  {
    if es != [] {
      var n := |es| - 1;
      FreshBefore(st, compile, es);
      AutomaticPublishesRest(st, compile, es[..n], id);
      assert es[n] in es;
      AutomaticStep(st, compile, es[n], id);
    }
  }

  /** After a rollback, with inputs unchanged since the last publish, automatic publishes leave
      the pointer where it was put. */
  lemma RollbackStands(st: Store, compile: Compiler, back: Event, es: seq<Event>, id: Id)
    requires PointersOk(st) && UpToDate(st, id)
    requires back.Rollback? && back.pubId in st.publications && st.publications[back.pubId].setId == id
    requires FreshIds(Do(st, compile, back), compile, es) && forall e | e in es :: e.Publish? && Idle(e, id)
    ensures var mid := Do(st, compile, back);
            Run(mid, compile, es) == mid && mid.publications == st.publications && id in mid.sets
              && mid.sets[id].current == back.pubId
  {
    RollbackStep(st, compile, back, id);
    PointersKept(st, compile, back);
    AutomaticPublishesRest(Do(st, compile, back), compile, es, id);
  }

  /** A stored publish of selected items makes its set up to date. */
  lemma PublishUpdates(st: Store, compile: Compiler, e: Event)
    requires e.Publish? && e.pubId != ""
    requires var o := Prepare(st, compile, e.id, e.automatic, e.preview, e.pubId, e.now);
             o.Published? && o.signature != EmptyAggregate
    ensures UpToDate(Do(st, compile, e), e.id) && Do(st, compile, e).sets[e.id].current == e.pubId
  {
    SameChoice(st, Do(st, compile, e), Sorted(st.sets[e.id].members));
  }
}
