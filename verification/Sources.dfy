/** Sources, their revisions and every transaction on them: internal/service/service.go, content.go, steward.go. */
module Sources {
  import opened Common
  import opened Model
  import opened Difference

  type Stamp = int
  type Headers = map<string, string>

  const MINUTE := 60

  datatype Health = Unknown | Healthy | Degraded | Failing | Avoid | Disabled | Quarantined
  datatype Policy = Auto | Review | Pinned | Manual
  datatype RevisionStatus = Staged | Approved | Rejected | Invalid
  datatype Action = Approve | ApproveEnable | Rollback | Reject | Enable | Disable | Quarantine | Release

  /** The fields EditSource may rewrite. */
  datatype Settings = Settings(
    name: string, trust: string, network: string, proxyId: string, hubProxyMode: string, policy: Policy,
    intervalMinutes: nat, probeMinutes: nat, smokeKeyword: string, hubPluginId: string,
    runtimeId: string, mode: string, mediaTypes: seq<string>)

  /** Times are seconds; an unset time is 0. The empty id stands for no revision, as in the source. */
  datatype Source = Source(
    protocol: string, url: string, catalogId: Id, settings: Settings,
    enabled: bool, health: Health, score: int, failures: nat, active: Id, staged: Id,
    etag: string, lastModified: string, lastChecked: int, nextSync: int, nextProbe: int, updatedAt: Stamp)

  /** A body is named by its hash. */
  datatype Revision = Revision(sourceId: Id, hash: string, normalized: Normalized, status: RevisionStatus)

  datatype DB = DB(sources: map<Id, Source>, revisions: map<Id, Revision>, headers: map<Id, Headers>, deleted: set<Id>)

  datatype Error =
    | NotFound | Conflict | ProtocolChange | EndpointChange | InvalidSettings | StagedChanged | ForeignRevision
    | InvalidRevision | NotStaged | NotApproved | NothingStaged | NoActive | NotQuarantined
    | RemoteSource | ParseFailed | Identical | InUse

  datatype Probe = Probe(functional: bool, success: bool)

  datatype Response = Response(notModified: bool, hash: string, etag: string, lastModified: string)

  /** Everything outside the database that the operations consult. */
  datatype Env = Env(
    host: string -> string,
    accepts: Source -> bool,                                             // validateRuntime
    fetch: (string, string, string, string, Headers, string, string) -> Option<Response>,
    parse: (string, string, string) -> Option<Normalized>,
    sample: (Id, string, string, Settings, Headers, Normalized) -> Probe,
    connectors: set<string>)

  const BOOKS := {"legado-book", "so-novel", "relay-book"}

  function HeadersOf(db: DB, id: Id): Headers { if id in db.headers then db.headers[id] else map[] }

  function PutSource(db: DB, id: Id, v: Source): DB { db.(sources := db.sources[id := v]) }

  function PutRevision(db: DB, id: Id, r: Revision): DB { db.(revisions := db.revisions[id := r]) }

  predicate Held(h: Health) { h == Quarantined || h == Disabled }

  // ---- operator transactions ----

  /** Import and CandidateAction "accept": a new source starts disabled with one staged revision.
      Only Import, which names no catalog, runs validateRuntime. */
  function NewSource(protocol: string, url: string, catalogId: Id, settings: Settings, revId: Id,
                     stamp: Stamp): Source {
    Source(protocol, url, catalogId, settings, false, Unknown, 0, 0, "", revId, "", "", 0, 0, 0, stamp)
  }

  function Admitted(db: DB, env: Env, id: Id, v: Source, revId: Id, hash: string, n: Normalized,
                    h: Option<Headers>): Result<DB, Error> {
    if v.catalogId == "" && !env.accepts(v) then Err(InvalidSettings)
    else
      var next := PutRevision(PutSource(db, id, v), revId, Revision(id, hash, n, Staged));
      Ok(if h.Some? then next.(headers := next.headers[id := h.value]) else next)
  }

  datatype Edit = Edit(
    name: string, trust: string, network: string, proxyId: Option<string>, hubProxyMode: Option<string>, policy: Policy,
    intervalMinutes: nat, probeMinutes: nat, smokeKeyword: string, hubPluginId: string,
    runtimeId: string, mode: string, mediaTypes: seq<string>, protocol: string, url: string, headers: Option<Headers>)

  function EditedSettings(s: Settings, e: Edit): Settings {
    Settings(e.name, e.trust, e.network,
             if e.proxyId.Some? then e.proxyId.value else s.proxyId,
             if e.hubProxyMode.Some? then e.hubProxyMode.value else s.hubProxyMode,
             e.policy, e.intervalMinutes, e.probeMinutes, e.smokeKeyword, e.hubPluginId, e.runtimeId,
             if e.mode != "" then e.mode else s.mode,
             if e.mediaTypes != [] then e.mediaTypes else s.mediaTypes)
  }

  /** A change of settings or credentials forgets the measured health unless the source is held. */
  function Unmeasured(v: Source): Source { if Held(v.health) then v else v.(health := Unknown, score := 0) }

  function Edited(db: DB, env: Env, id: Id, e: Edit, stamp: Stamp): Result<DB, Error> {
    if id !in db.sources then Err(NotFound)
    else
      var v := db.sources[id];
      if e.protocol != "" && e.protocol != v.protocol then Err(ProtocolChange)
      else if e.url != v.url then Err(EndpointChange)
      else
        var w := v.(settings := EditedSettings(v.settings, e), nextProbe := 0);
        if !env.accepts(w) then Err(InvalidSettings)
        else
          var next := PutSource(db, id, Unmeasured(w).(updatedAt := stamp));
          Ok(if e.headers.Some? then next.(headers := next.headers[id := e.headers.value]) else next)
  }

  function Rekeyed(db: DB, id: Id, h: Headers, stamp: Stamp): Result<DB, Error> {
    if id !in db.sources then Err(NotFound)
    else Ok(PutSource(db, id, Unmeasured(db.sources[id]).(updatedAt := stamp)).(headers := db.headers[id := h]))
  }

  /** Why approve, approve-enable or rollback refuses a revision. */
  function ApprovalError(db: DB, id: Id, a: Action, revision: Id): Option<Error>
    requires id in db.sources
  {
    var v := db.sources[id];
    if a == ApproveEnable && (revision == "" || revision != v.staged) then Some(StagedChanged)
    else
      var rid := if revision == "" then v.staged else revision;
      if rid !in db.revisions then Some(NotFound)
      else
        var r := db.revisions[rid];
        if r.sourceId != id then Some(ForeignRevision)
        else if r.status == Invalid then Some(InvalidRevision)
        else if a == ApproveEnable && r.status != Staged then Some(NotStaged)
        else if a == Rollback && r.status != Approved then Some(NotApproved)
        else None
  }

  function ApprovedRow(v: Source, a: Action, rid: Id): Source {
    var lifts := !Held(v.health) || (a == ApproveEnable && v.health == Disabled);
    v.(active := rid, staged := if rid == v.staged then "" else v.staged,
       settings := if a == Rollback then v.settings.(policy := Pinned) else v.settings,
       health := if lifts then Degraded else v.health,
       score := if lifts then 60 else v.score,
       enabled := v.enabled || a == ApproveEnable)
  }

  function Acted(db: DB, id: Id, a: Action, revision: Id, stamp: Stamp): Result<DB, Error> {
    if id !in db.sources then Err(NotFound)
    else
      var v := db.sources[id];
      match a
      case Approve | ApproveEnable | Rollback =>
        var e := ApprovalError(db, id, a, revision);
        if e.Some? then Err(e.value)
        else
          var rid := if revision == "" then v.staged else revision;
          Ok(PutSource(PutRevision(db, rid, db.revisions[rid].(status := Approved)), id,
                       ApprovedRow(v, a, rid).(updatedAt := stamp)))
      case Reject =>
        if v.staged == "" then Err(NothingStaged)
        else if v.staged !in db.revisions then Err(NotFound)
        else Ok(PutSource(PutRevision(db, v.staged, db.revisions[v.staged].(status := Rejected)), id,
                          v.(staged := "", updatedAt := stamp)))
      case Enable =>
        if v.active == "" then Err(NoActive)
        else Ok(PutSource(db, id,
                          if v.health == Disabled then
                            v.(enabled := true, health := Unknown, score := 0, updatedAt := stamp)
                                  else v.(enabled := true, updatedAt := stamp)))
      case Disable => Ok(PutSource(db, id, v.(enabled := false, health := Disabled, updatedAt := stamp)))
      case Quarantine => Ok(PutSource(db, id, v.(health := Quarantined, score := 0, updatedAt := stamp)))
      case Release =>
        if v.health != Quarantined then Err(NotQuarantined)
        else Ok(PutSource(db, id, v.(health := Unknown, failures := 0, score := 0, updatedAt := stamp)))
  }

  function Removed(db: DB, id: Id): Result<DB, Error> {
    if id !in db.sources then Err(NotFound)
    else Ok(DB(db.sources - {id}, map r | r in db.revisions && db.revisions[r].sourceId != id :: db.revisions[r],
               db.headers - {id}, db.deleted))
  }

  function SoftDeleted(db: DB, id: Id, stamp: Stamp): Result<DB, Error> {
    if id !in db.sources then Err(NotFound)
    else
      var v := db.sources[id].(enabled := false, health := Disabled, updatedAt := stamp);
      Ok(PutSource(db, id, v).(deleted := db.deleted + {id}))
  }

  function Undeleted(db: DB, id: Id, stamp: Stamp): Result<DB, Error> {
    if id !in db.deleted || id !in db.sources then Err(NotFound)
    else Ok(PutSource(db, id, db.sources[id].(updatedAt := stamp)).(deleted := db.deleted - {id}))
  }

  // ---- the scheduler ----

  /** One scheduler tick on one row. These writes leave the version stamp alone. */
  function Scheduled(v: Source, now: int): Source {
    var s := v.settings;
    var reprobe := v.enabled && v.active != "" && (s.probeMinutes > 0 || v.health == Avoid) && v.nextProbe <= now;
    var p := if !reprobe then v
             else v.(nextProbe := now + (if s.probeMinutes == 0 then 30 else s.probeMinutes) * MINUTE);
    if !v.enabled || v.url == "" || s.policy == Pinned || s.policy == Manual || v.nextSync > now then p
    else p.(nextSync := now + s.intervalMinutes * MINUTE)
  }

  function Ticked(db: DB, now: int): DB {
    db.(sources := map id | id in db.sources :: Scheduled(db.sources[id], now))
  }

  // ---- the read phases of the long operations ----

  datatype Fetched = Fetched(response: Response, hash: string, parsed: Normalized, sample: Option<Probe>)

  datatype SyncPlan = Refused | Delegated | FetchFailed | Malformed(hash: string) | Ready(f: Fetched)

  /** The read phase of SyncSource: conditional are the credentials read for the fetch, sampling
      those read for the sample. */
  function PlanSync(env: Env, id: Id, src: Source, conditional: Headers, sampling: Headers): SyncPlan {
    var s := src.settings;
    if s.policy == Pinned || src.url == "" then Refused
    else if src.protocol in env.connectors then Delegated
    else
      var res := env.fetch(src.url, s.network, s.trust, s.proxyId, conditional, src.etag, src.lastModified);
      if res.None? then FetchFailed
      else if res.value.notModified then Ready(Fetched(res.value, "", NOTHING, None))
      else
        var n := env.parse(res.value.hash, src.protocol, src.url);
        if n.None? then Malformed(res.value.hash)
        else
          var sample := if s.policy == Auto && src.protocol !in BOOKS
                        then Some(env.sample(id, src.protocol, src.url, s, sampling, n.value)) else None;
          Ready(Fetched(res.value, res.value.hash, n.value, sample))
  }

  function ProbedRevision(src: Source): Id { if src.active == "" then src.staged else src.active }

  // ---- the commit phases ----

  function PriorContent(db: DB, v: Source): Normalized {
    if v.active in db.revisions && v.active != "" then db.revisions[v.active].normalized else NOTHING
  }

  /** The fetched body is the active one, a rejected one, or the one waiting for review. */
  predicate KnownHash(db: DB, id: Id, v: Source, hash: string) {
    || (v.active != "" && v.active in db.revisions && db.revisions[v.active].hash == hash)
    || (exists r | r in db.revisions ::
          db.revisions[r].sourceId == id && db.revisions[r].hash == hash && db.revisions[r].status == Rejected)
    || (v.staged != "" && v.staged in db.revisions && db.revisions[v.staged].hash == hash)
  }

  /** The full gate of an automatic update. */
  predicate AutoGate(db: DB, env: Env, v: Source, f: Fetched) {
    && v.settings.policy == Auto && v.active != "" && v.health != Quarantined
    && f.sample.Some? && f.sample.value.success && f.sample.value.functional
    && !DiffOf(env.host, PriorContent(db, v).items, f.parsed.items).requiresReview
  }

  function Refreshed(v: Source, r: Response, now: int): Source {
    v.(lastChecked := now, nextSync := now + v.settings.intervalMinutes * MINUTE,
       etag := if !r.notModified || r.etag != "" then r.etag else v.etag,
       lastModified := if !r.notModified || r.lastModified != "" then r.lastModified else v.lastModified)
  }

  function CommitSync(db: DB, env: Env, id: Id, read: Stamp, f: Fetched, revId: Id, now: int,
                      stamp: Stamp): Result<DB, Error> {
    if id !in db.sources then Err(NotFound)
    else
      var v := db.sources[id];
      if v.updatedAt != read then Err(Conflict)
      else
        var row := Refreshed(v, f.response, now).(updatedAt := stamp);
        if f.hash == "" then Ok(PutSource(db, id, row))
        else if (v.active != "" && v.active !in db.revisions) || (v.staged != "" && v.staged !in db.revisions) then
          Err(NotFound)
        else if KnownHash(db, id, v, f.hash) then Ok(PutSource(db, id, row))
        else if AutoGate(db, env, v, f) then
          Ok(PutRevision(PutSource(db, id, row.(active := revId, staged := "")), revId,
                         Revision(id, f.hash, f.parsed, Approved)))
        else Ok(PutRevision(PutSource(db, id, row.(staged := revId)), revId, Revision(id, f.hash, f.parsed, Staged)))
  }

  function ProbedRow(v: Source, p: Probe, now: int): Source {
    var failures := if p.success then 0 else v.failures + 1;
    var row := v.(lastChecked := now, failures := failures);
    if Held(v.health) then row
    else if p.success then
      row.(health := if p.functional then Healthy else Degraded, score := if p.functional then 100 else 60)
    else row.(health := if failures >= 3 then Avoid else if failures >= 2 then Failing else Degraded,
              score := if failures >= 3 then 0 else 60 - failures * 20,
              nextProbe := if failures >= 3 then now + 30 * MINUTE else v.nextProbe)
  }

  /** saveProbe, which also ends a sync that failed to fetch or parse. */
  function CommitProbe(db: DB, id: Id, read: Source, p: Probe, now: int, stamp: Stamp): Result<DB, Error> {
    if id !in db.sources then Err(NotFound)
    else
      var v := db.sources[id];
      if v.updatedAt != read.updatedAt || v.active != read.active
        || v.settings.runtimeId != read.settings.runtimeId then Err(Conflict)
      else Ok(PutSource(db, id, ProbedRow(v, p, now).(updatedAt := stamp)))
  }

  function CommitStage(db: DB, id: Id, read: Stamp, hash: string, n: Normalized, revId: Id,
                       stamp: Stamp): Result<DB, Error> {
    if id !in db.sources then Err(NotFound)
    else
      var v := db.sources[id];
      if v.updatedAt != read then Err(Conflict)
      else if (v.active != "" && v.active !in db.revisions) || (v.staged != "" && v.staged !in db.revisions) then
        Err(NotFound)
      else if v.staged != "" && db.revisions[v.staged].hash == hash then Ok(db)
      else if v.active != "" && db.revisions[v.active].hash == hash then Err(Identical)
      else Ok(PutRevision(PutSource(db, id, v.(staged := revId, updatedAt := stamp)), revId,
                          Revision(id, hash, n, Staged)))
  }

  /** The revision SyncSource records when the body does not parse, in a transaction of its own. */
  function RecordedInvalid(db: DB, id: Id, revId: Id, hash: string): Result<DB, Error> {
    if id !in db.sources then Err(NotFound)
    else Ok(PutRevision(db, revId, Revision(id, hash, Normalized(db.sources[id].protocol, []), Invalid)))
  }
}
