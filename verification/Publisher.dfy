/** Publications and the pointers of source sets: internal/service/publisher.go, aggregate.go. */
module Publisher {
  import opened Common
  import opened Model
  import opened Members
  import opened Sources
  import opened Text

  const AGGREGATES := {"aggregate-tvbox", "aggregate-iptv", "aggregate-novel", "aggregate-manga", "aggregate-audiobook",
                       "aggregate-music", "aggregate-rss", "aggregate-other"}
  const LEGACY := {"aggregate-legado"}

  predicate IsAggregateSetID(id: Id) { id in AGGREGATES || id in LEGACY }

  datatype Runtime = Runtime(url: string, driver: string, healthy: bool)

  datatype Selected = Selected(id: Id, source: Source, revision: Id, content: Normalized, member: Member,
                               endpoint: string, driver: string)

  /** What publicationInputs keeps of a selected item. */
  datatype Input = Input(id: Id, name: string, revision: Id, mode: string, mediaTypes: seq<string>, health: Health,
                         score: int, endpoint: string, driver: string, hubProxyMode: string)

  /** A signature is an injective hash, so it is modelled by the inputs it is computed from. */
  datatype Signature =
    | Unsigned
    | EmptyAggregate
    | Signed(name: string, description: string, members: seq<Member>, rules: seq<ChannelRule>, inputs: seq<Input>,
             excluded: map<Id, string>)

  datatype SourceSet = SourceSet(
    name: string, description: string, members: seq<Member>, rules: seq<ChannelRule>,
    autoPublish: bool, minAvailable: int, maxExcludedPercent: int,
    signature: Signature, current: Id, previous: Id, updatedAt: Stamp)

  datatype Publication = Publication(setId: Id, sourceRevisions: map<Id, Id>, exclusions: map<Id, string>,
                                     artifacts: map<string, string>)

  datatype Store = Store(db: DB, runtimes: map<Id, Runtime>, sets: map<Id, SourceSet>,
                         publications: map<Id, Publication>)

  /** Compile: the artifacts by path, or no value when compilation fails. */
  type Compiler = (Id, string, seq<ChannelRule>, seq<Selected>, Id, int) -> Option<map<string, string>>

  datatype PublishError =
    | Missing | NotApprovedActive | Ineligible(excluded: map<Id, string>) | HeldByPolicy | CompileFailed
    | Stale | DuplicateMember | BadLimits | BadMember | BadName | TooLarge
    | TooManyRules | BadRule | DuplicateRule | UnsafeLogo

  // ---- choosing the members that publish ----

  predicate Overlap(a: seq<string>, b: seq<string>) { exists x | x in a :: x in b }

  function HealthText(h: Health): string {
    match h
    case Unknown => "unknown"
    case Healthy => "healthy"
    case Degraded => "degraded"
    case Failing => "failing"
    case Avoid => "avoid"
    case Disabled => "disabled"
    case Quarantined => "quarantined"
  }

  /** Why a source does not publish, "" when nothing about the row itself forbids it. */
  function Reason(v: Source, m: Member): string {
    if !v.enabled then "disabled"
    else if v.active == "" then "no_approved_revision"
    else if v.health == Quarantined || v.health == Failing || v.health == Avoid || v.health == Health.Disabled then
      HealthText(v.health)
    else if v.score < m.minScore then "below_minimum_health"
    else if v.settings.mode == "catalog-only" then "catalog_only"
    else if m.mediaTypes != [] && !Overlap(v.settings.mediaTypes, m.mediaTypes) then "media_filtered"
    else ""
  }

  datatype Choice = Chosen(item: Selected) | Excluded(reason: string)

  function Verdict(st: Store, m: Member): Result<Choice, PublishError> {
    if m.sourceId !in st.db.sources then Err(Missing)
    else
      var v := st.db.sources[m.sourceId];
      if Reason(v, m) != "" then Ok(Excluded(Reason(v, m)))
      else if v.active !in st.db.revisions then Err(Missing)
      else
        var r := st.db.revisions[v.active];
        if r.status != Approved then Err(NotApprovedActive)
        else if (m.languages != [] || m.regions != [])
          && Filtered(m.languages, m.regions, r.normalized.items) == [] then
          Ok(Excluded("item_filter_empty"))
        else if v.settings.runtimeId == "" then
          Ok(Chosen(Selected(m.sourceId, v, v.active, r.normalized, m, v.url, v.protocol)))
        else if v.settings.runtimeId !in st.runtimes then Err(Missing)
        else
          var rt := st.runtimes[v.settings.runtimeId];
          if !rt.healthy then Ok(Excluded("runtime_unavailable"))
          else Ok(Chosen(Selected(m.sourceId, v, v.active, r.normalized, m, rt.url, rt.driver)))
  }

  datatype Split = Split(items: seq<Selected>, excluded: map<Id, string>)

  function Choose(st: Store, members: seq<Member>): Result<Split, PublishError> {
    if members == [] then Ok(Split([], map[]))
    else
      var n := |members| - 1;
      var rest := Choose(st, members[..n]);
      if rest.Err? then rest
      else
        match Verdict(st, members[n])
        case Err(e) => Err(e)
        case Ok(Chosen(item)) => Ok(Split(rest.value.items + [item], rest.value.excluded))
        case Ok(Excluded(reason)) => Ok(Split(rest.value.items, rest.value.excluded[members[n].sourceId := reason]))
  }

  // ---- publishing ----

  function InputsOf(items: seq<Selected>): seq<Input> {
    if items == [] then []
    else
      var n := |items| - 1;
      var v := items[n];
      var s := v.source.settings;
      InputsOf(items[..n]) + [Input(v.id, s.name, v.revision, s.mode, s.mediaTypes, v.source.health, v.source.score,
                                    v.endpoint, v.driver, s.hubProxyMode)]
  }

  function SignatureOf(set_: SourceSet, c: Split): Signature {
    Signed(set_.name, set_.description, Sorted(set_.members), set_.rules, InputsOf(c.items), c.excluded)
  }

  function RevisionsOf(items: seq<Selected>): map<Id, Id> {
    if items == [] then map[]
    else RevisionsOf(items[..|items| - 1])[items[|items| - 1].id := items[|items| - 1].revision]
  }

  const EMPTY_BUNDLE := "shadow.json"

  datatype Outcome =
    | Failed(error: PublishError)
    | Kept(id: Id)
    | Previewed(p: Publication)
    | Published(p: Publication, signature: Signature)

  /** The availability policy of a set: what automation may not publish. */
  predicate HeldBack(s: SourceSet, selected: nat, excluded: nat, members: nat) {
    !s.autoPublish || selected < s.minAvailable || excluded * 100 > s.maxExcludedPercent * members
  }

  /** preparePublication with nothing to publish: an empty aggregate publishes its empty bundle,
      automation keeps what is there. */
  function NothingSelected(st: Store, id: Id, excluded: map<Id, string>, automatic: bool, preview: bool): Outcome
    requires id in st.sets
  {
    var s := st.sets[id];
    if IsAggregateSetID(id) && s.members == [] && !preview then
      Published(Publication(id, map[], excluded, map[EMPTY_BUNDLE := s.name]), EmptyAggregate)
    else if automatic && s.current != "" then
      if s.current in st.publications then Kept(s.current) else Failed(Missing)
    else Failed(Ineligible(excluded))
  }

  /** preparePublication with something to publish: held back, kept because nothing has changed, or compiled. */
  function SomethingSelected(st: Store, compile: Compiler, id: Id, c: Split, automatic: bool, preview: bool, pubId: Id,
                             now: int): Outcome
    requires id in st.sets
  {
    var s := st.sets[id];
    if automatic && HeldBack(s, |c.items|, |c.excluded|, |s.members|) then Failed(HeldByPolicy)
    else if automatic && SignatureOf(s, c) == s.signature && s.current != "" then
      if s.current in st.publications then Kept(s.current) else Failed(Missing)
    else
      var artifacts := compile(id, s.name, s.rules, c.items, pubId, now);
      if artifacts.None? then Failed(CompileFailed)
      else
        var p := Publication(id, RevisionsOf(c.items), c.excluded, artifacts.value);
        if preview then Previewed(p) else Published(p, SignatureOf(s, c))
  }

  /** preparePublication: what one publish, automatic publish or preview decides. */
  function Prepare(st: Store, compile: Compiler, id: Id, automatic: bool, preview: bool, pubId: Id, now: int): Outcome {
    if id !in st.sets then Failed(Missing)
    else
      match Choose(st, Sorted(st.sets[id].members))
      case Err(e) => Failed(e)
      case Ok(c) =>
        if c.items == [] then NothingSelected(st, id, c.excluded, automatic, preview)
        else SomethingSelected(st, compile, id, c, automatic, preview, pubId, now)
  }

  function Moved(s: SourceSet, pubId: Id, signature: Signature, stamp: Stamp): SourceSet {
    s.(signature := signature, previous := s.current, current := pubId, updatedAt := stamp)
  }

  /** Only a publication that was decided is stored, and with it the pointers move. */
  function Settle(st: Store, id: Id, o: Outcome, pubId: Id, stamp: Stamp): Store {
    if o.Published? && id in st.sets then
      st.(publications := st.publications[pubId := o.p],
          sets := st.sets[id := Moved(st.sets[id], pubId, o.signature, stamp)])
    else st
  }

  function RolledBack(st: Store, pubId: Id, stamp: Stamp): Result<Store, PublishError> {
    if pubId !in st.publications || st.publications[pubId].setId !in st.sets then Err(Missing)
    else
      var id := st.publications[pubId].setId;
      var s := st.sets[id];
      if s.current == pubId then Ok(st)
      else Ok(st.(sets := st.sets[id := s.(previous := s.current, current := pubId, updatedAt := stamp)]))
  }

  /** withdrawAggregatePublication: an empty set gets an empty bundle, once. */
  function Withdrawn(st: Store, id: Id, pubId: Id, stamp: Stamp): Result<Store, PublishError> {
    if id !in st.sets then Err(Missing)
    else
      var s := st.sets[id];
      if s.members != [] || (s.signature == EmptyAggregate && s.current != "") then Ok(st)
      else Ok(st.(publications := st.publications[pubId := Publication(id, map[], map[], map[EMPTY_BUNDLE := s.name])],
                  sets := st.sets[id := Moved(s, pubId, EmptyAggregate, stamp)]))
  }

  // ---- editing a set ----

  /** A member as it is sent: with its role as a text, which may be empty. The role of member itself is not read. */
  datatype Proposed = Proposed(role: string, member: Member)

  datatype Draft = Draft(name: string, description: string, members: seq<Proposed>, rules: seq<ChannelRule>,
                         autoPublish: bool, minAvailable: int, maxExcludedPercent: int, expected: Option<Stamp>)

  function RoleOf(role: string): Option<Role> {
    if role == "" || role == "primary" then Some(Primary)
    else if role == "backup" then Some(Backup)
    else if role == "auxiliary" then Some(Auxiliary)
    else None
  }

  function Defaulted(p: Proposed): Member {
    var m := p.member;
    m.(role := if RoleOf(p.role).Some? then RoleOf(p.role).value else Primary,
       weight := if m.weight == 0 then 1 else m.weight,
       timeoutMs := if m.timeoutMs == 0 then 15000 else m.timeoutMs,
       maxConcurrency := if m.maxConcurrency == 0 then 2 else m.maxConcurrency)
  }

  const MEDIA_TYPES := {"video.movie", "video.series", "video.short", "video.live", "text.novel", "text.ebook",
                        "text.article", "image.comic", "audio.audiobook", "audio.podcast", "audio.music",
                        "audio.radio", "speech.tts",
                        "support.metadata", "support.subtitle", "support.danmaku", "support.epg", "support.lyric"}

  predicate InRange(p: Proposed) {
    var m, d := p.member, Defaulted(p);
    && RoleOf(p.role).Some?
    && 0 <= m.minScore <= 100 && 0 <= m.priority <= 10000 && 0 <= m.weight <= 10000
    && 100 <= d.timeoutMs <= 120000 && 1 <= d.maxConcurrency <= 32
    && forall x | x in m.mediaTypes :: x in MEDIA_TYPES
  }

  /** The members as stored, or the first reason a member is refused. */
  function Checked(st: Store, ps: seq<Proposed>): Result<seq<Member>, PublishError> {
    if ps == [] then Ok([])
    else
      var n := |ps| - 1;
      var rest := Checked(st, ps[..n]);
      if rest.Err? then rest
      else if exists i | 0 <= i < n :: ps[i].member.sourceId == ps[n].member.sourceId then Err(DuplicateMember)
      else if ps[n].member.sourceId !in st.db.sources then Err(Missing)
      else if !InRange(ps[n]) then Err(BadMember)
      else Ok(rest.value + [Defaulted(ps[n])])
  }

  // ---- channel rules ----

  type SafeUrl = string -> bool

  function Shown(r: ChannelRule): string { r.name + r.group + r.tvgId }

  predicate Readable(r: ChannelRule) {
    var s := Shown(r);
    r.match_ != "" && |s| <= 1000 && '\r' !in s && '\n' !in s && '\0' !in s
  }

  /** By this text two rules are told apart. */
  function RuleKey(r: ChannelRule): string { r.sourceId + "|" + r.match_ }

  predicate LogoOk(safe: SafeUrl, r: ChannelRule) { r.logo == "" || safe(r.logo) }

  /** The first reason a rule is refused. */
  function RuleFault(safe: SafeUrl, rules: seq<ChannelRule>): Option<PublishError> {
    if rules == [] then None
    else
      var n := |rules| - 1;
      var before := RuleFault(safe, rules[..n]);
      if before.Some? then before
      else if !Readable(rules[n]) then Some(BadRule)
      else if exists i | 0 <= i < n :: RuleKey(rules[i]) == RuleKey(rules[n]) then Some(DuplicateRule)
      else if !LogoOk(safe, rules[n]) then Some(UnsafeLogo)
      else None
  }

  // ---- SaveSet ----

  predicate NameOk(name: string) { Trim(name) != "" && |name| <= 160 }

  /** What is wrong with the set apart from its members: name, sizes, rules, limits, in this order. */
  function DraftFault(safe: SafeUrl, d: Draft): Option<PublishError> {
    var available := if d.minAvailable == 0 then 1 else d.minAvailable;
    if !NameOk(d.name) then Some(BadName)
    else if |d.description| > 2000 || |d.members| > 500 then Some(TooLarge)
    else if |d.rules| > 2000 then Some(TooManyRules)
    else if RuleFault(safe, d.rules).Some? then RuleFault(safe, d.rules)
    else if available < 1 || d.maxExcludedPercent < 0 || d.maxExcludedPercent > 100 then Some(BadLimits)
    else None
  }

  function Saved(st: Store, safe: SafeUrl, id: Id, isNew: bool, d: Draft, stamp: Stamp): Result<Store, PublishError> {
    var available := if d.minAvailable == 0 then 1 else d.minAvailable;
    if DraftFault(safe, d).Some? then Err(DraftFault(safe, d).value)
    else if !isNew && id !in st.sets then Err(Missing)
    else if !isNew && d.expected.Some? && d.expected.value != st.sets[id].updatedAt then Err(Stale)
    else
      match Checked(st, d.members)
      case Err(e) => Err(e)
      case Ok(ms) =>
        var s := SourceSet(d.name, d.description, ms, d.rules, d.autoPublish, available, d.maxExcludedPercent, Unsigned,
                           "", "", stamp);
        Ok(st.(sets := st.sets[id :=
          if isNew then s
          else s.(signature := st.sets[id].signature, current := st.sets[id].current,
                  previous := st.sets[id].previous)]))
  }
}
