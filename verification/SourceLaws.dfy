/** What the transactions on sources mean for the rows, said without the functions that compute them. */
module SourceLaws {
  import opened Common
  import opened Model
  import opened Difference
  import opened Sources

  /** Only the row of id can differ, and sources neither come nor go. */
  ghost predicate OnlySource(was: DB, now: DB, id: Id) {
    && id in was.sources && now.sources.Keys == was.sources.Keys
    && forall o | o in was.sources && o != id :: now.sources[o] == was.sources[o]
  }

  ghost predicate OnlyRevision(was: DB, now: DB, r: Id) {
    now.revisions.Keys == was.revisions.Keys + {r} && forall o | o in was.revisions && o != r ::
        now.revisions[o] == was.revisions[o]
  }

  predicate SameIdentity(v: Source, w: Source) {
    w.protocol == v.protocol && w.url == v.url && w.catalogId == v.catalogId
  }

  predicate SameReview(v: Source, w: Source) { w.enabled == v.enabled && w.active == v.active && w.staged == v.staged }

  predicate SameHealth(v: Source, w: Source) { w.health == v.health && w.score == v.score && w.failures == v.failures }

  predicate SameTimes(v: Source, w: Source) {
    && w.lastChecked == v.lastChecked && w.nextSync == v.nextSync && w.nextProbe == v.nextProbe
    && w.etag == v.etag && w.lastModified == v.lastModified
  }

  predicate Keeps(v: Source, w: Source) { SameIdentity(v, w) && w.settings == v.settings }

  // ---- probes ----

  /** A probe that does not see the row it started from is refused. */
  lemma ProbeIsStale(db: DB, id: Id, read: Source, p: Probe, now: int, stamp: Stamp)
    ensures CommitProbe(db, id, read, p, now, stamp).Ok? <==>
              && id in db.sources && db.sources[id].updatedAt == read.updatedAt
              && db.sources[id].active == read.active && db.sources[id].settings.runtimeId == read.settings.runtimeId
  {
  }

  /** A success forgets the failures: functional it makes an unheld source healthy, otherwise degraded at 60. */
  lemma ProbeSucceeds(db: DB, id: Id, read: Source, p: Probe, now: int, stamp: Stamp)
    requires CommitProbe(db, id, read, p, now, stamp).Ok? && p.success
    ensures var after := CommitProbe(db, id, read, p, now, stamp).value;
            && OnlySource(db, after, id) && after.revisions == db.revisions && after.headers == db.headers
            && var v, w := db.sources[id], after.sources[id];
               && w.failures == 0 && w.nextProbe == v.nextProbe
               && (if v.health == Quarantined || v.health == Disabled then w.health == v.health && w.score == v.score
                   else if p.functional then w.health == Healthy && w.score == 100
                   else w.health == Degraded && w.score == 60)
  {
  }

  /** Each failure counts: the first leaves an unheld source degraded at 40, the second failing at 20, and from the
      third on it is avoided, with no score and the next probe half an hour away. */
  lemma ProbeFails(db: DB, id: Id, read: Source, p: Probe, now: int, stamp: Stamp)
    requires CommitProbe(db, id, read, p, now, stamp).Ok? && !p.success
    ensures var after := CommitProbe(db, id, read, p, now, stamp).value;
            && OnlySource(db, after, id) && after.revisions == db.revisions && after.headers == db.headers
            && var v, w := db.sources[id], after.sources[id];
               && w.failures == v.failures + 1
               && (if v.health == Quarantined || v.health == Disabled then
                     w.health == v.health && w.score == v.score && w.nextProbe == v.nextProbe
                   else if v.failures == 0 then w.health == Degraded && w.score == 40 && w.nextProbe == v.nextProbe
                   else if v.failures == 1 then w.health == Failing && w.score == 20 && w.nextProbe == v.nextProbe
                   else w.health == Avoid && w.score == 0 && w.nextProbe == now + 1800)
  {
  }

  /** Whatever its outcome, a probe touches nothing but health, failures and times. */
  lemma ProbeKeeps(db: DB, id: Id, read: Source, p: Probe, now: int, stamp: Stamp)
    requires CommitProbe(db, id, read, p, now, stamp).Ok?
    ensures var v, w := db.sources[id], CommitProbe(db, id, read, p, now, stamp).value.sources[id];
            Keeps(v, w) && SameReview(v, w) && w.lastChecked == now && w.nextSync == v.nextSync && w.updatedAt == stamp
  {
  }

  // ---- syncs ----

  /** The source has this body already: in use, waiting for review, or rejected. */
  ghost predicate Seen(db: DB, id: Id, hash: string)
    requires id in db.sources
  {
    var v := db.sources[id];
    || (v.active in db.revisions && v.active != "" && db.revisions[v.active].hash == hash)
    || (v.staged in db.revisions && v.staged != "" && db.revisions[v.staged].hash == hash)
    || exists r :: r in db.revisions && db.revisions[r].sourceId == id && db.revisions[r].hash == hash
                   && db.revisions[r].status == Rejected
  }

  /** What an update must be to go live by itself: the owner lets it, there is something in use to compare with and the
      source is not quarantined, the fetched content was sampled with success, more than four fifths of the channels
      stay, and no address leads to a host that was not there before. */
  ghost predicate MayGoLive(db: DB, env: Env, id: Id, f: Fetched)
    requires id in db.sources
  {
    var v := db.sources[id];
    && v.settings.policy == Auto && v.active != "" && v.health != Quarantined
    && f.sample == Some(Probe(true, true))
    && v.active in db.revisions
    && var was := db.revisions[v.active].normalized.items;
       && (was == [] || 5 * |Keyed(was).Keys * Keyed(f.parsed.items).Keys| > 4 * |Keyed(was)|)
       && (Hosts(env.host, was) == {} || Hosts(env.host, f.parsed.items) <= Hosts(env.host, was))
  }

  /** Goes live: the fetched content becomes the approved active revision, and nothing waits for review any more. */
  ghost predicate WentLive(was: DB, now: DB, id: Id, f: Fetched, r: Id)
    requires id in was.sources
  {
    && OnlySource(was, now, id) && OnlyRevision(was, now, r)
    && now.revisions[r] == Revision(id, f.hash, f.parsed, Approved)
    && now.sources[id].active == r && now.sources[id].staged == ""
  }

  /** Waits for review: what is in use stays in use. */
  ghost predicate WasStaged(was: DB, now: DB, id: Id, f: Fetched, r: Id)
    requires id in was.sources
  {
    && OnlySource(was, now, id) && OnlyRevision(was, now, r)
    && now.revisions[r] == Revision(id, f.hash, f.parsed, Staged)
    && now.sources[id].active == was.sources[id].active && now.sources[id].staged == r
  }

  ghost predicate BroughtNothing(was: DB, now: DB, id: Id)
    requires id in was.sources
  {
    OnlySource(was, now, id) && now.revisions == was.revisions && SameReview(was.sources[id], now.sources[id])
  }

  lemma GateExactly(db: DB, env: Env, id: Id, f: Fetched)
    requires id in db.sources && (db.sources[id].active == "" || db.sources[id].active in db.revisions)
    ensures AutoGate(db, env, db.sources[id], f) <==> MayGoLive(db, env, id, f)
  {
    UnreviewedIsClose(env.host, PriorContent(db, db.sources[id]).items, f.parsed.items);
  }

  /** A sync that does not see the stamp it started from is refused, and so is one whose revisions have gone. */
  lemma SyncIsStale(db: DB, env: Env, id: Id, read: Stamp, f: Fetched, revId: Id, now: int, stamp: Stamp)
    ensures CommitSync(db, env, id, read, f, revId, now, stamp).Ok? <==>
              && id in db.sources && db.sources[id].updatedAt == read
              && var v := db.sources[id];
                 f.hash == "" || ((v.active == "" || v.active in db.revisions)
                                  && (v.staged == "" || v.staged in db.revisions))
  {
  }

  lemma SeenExactly(db: DB, id: Id, hash: string)
    requires id in db.sources
    ensures KnownHash(db, id, db.sources[id], hash) <==> Seen(db, id, hash)
  {
  }

  lemma KnownContent(db: DB, env: Env, id: Id, read: Stamp, f: Fetched, revId: Id, now: int, stamp: Stamp)
    requires CommitSync(db, env, id, read, f, revId, now, stamp).Ok?
    requires f.hash == "" || KnownHash(db, id, db.sources[id], f.hash)
    ensures BroughtNothing(db, CommitSync(db, env, id, read, f, revId, now, stamp).value, id)
  {
  }

  lemma NewContent(db: DB, env: Env, id: Id, read: Stamp, f: Fetched, revId: Id, now: int, stamp: Stamp)
    requires CommitSync(db, env, id, read, f, revId, now, stamp).Ok?
    requires f.hash != "" && !KnownHash(db, id, db.sources[id], f.hash)
    ensures var after := CommitSync(db, env, id, read, f, revId, now, stamp).value;
            if AutoGate(db, env, db.sources[id], f) then WentLive(db, after, id, f, revId)
            else WasStaged(db, after, id, f, revId)
  {
  }

  /** New content goes live exactly when it may, and otherwise waits for review; known content changes nothing. */
  lemma SyncDecides(db: DB, env: Env, id: Id, read: Stamp, f: Fetched, revId: Id, now: int, stamp: Stamp)
    requires CommitSync(db, env, id, read, f, revId, now, stamp).Ok?
    ensures id in db.sources
    ensures var after := CommitSync(db, env, id, read, f, revId, now, stamp).value;
            if f.hash == "" || Seen(db, id, f.hash) then BroughtNothing(db, after, id)
            else if MayGoLive(db, env, id, f) then WentLive(db, after, id, f, revId)
            else WasStaged(db, after, id, f, revId)
  {
    SeenExactly(db, id, f.hash);
    if f.hash == "" || KnownHash(db, id, db.sources[id], f.hash) {
      KnownContent(db, env, id, read, f, revId, now, stamp);
    } else {
      SyncIsStale(db, env, id, read, f, revId, now, stamp);
      GateExactly(db, env, id, f);
      NewContent(db, env, id, read, f, revId, now, stamp);
    }
  }

  /** Whatever it decides, a sync leaves settings and health alone. */
  lemma SyncKeeps(db: DB, env: Env, id: Id, read: Stamp, f: Fetched, revId: Id, now: int, stamp: Stamp)
    requires CommitSync(db, env, id, read, f, revId, now, stamp).Ok?
    ensures var after := CommitSync(db, env, id, read, f, revId, now, stamp).value;
            && after.headers == db.headers
            && var v, w := db.sources[id], after.sources[id];
               Keeps(v, w) && SameHealth(v, w) && w.enabled == v.enabled && w.nextProbe == v.nextProbe
  {
  }

  /** It notes when it ran, and sets the next one an interval away. */
  lemma SyncIsNoted(db: DB, env: Env, id: Id, read: Stamp, f: Fetched, revId: Id, now: int, stamp: Stamp)
    requires CommitSync(db, env, id, read, f, revId, now, stamp).Ok?
    ensures var v, w := db.sources[id], CommitSync(db, env, id, read, f, revId, now, stamp).value.sources[id];
            && w.updatedAt == stamp && w.lastChecked == now
            && w.nextSync == now + 60 * v.settings.intervalMinutes
  {
  }

  /** The validators that the next fetch will send are those of a full answer; one without news
      keeps those it does not name. */
  lemma SyncRemembers(db: DB, env: Env, id: Id, read: Stamp, f: Fetched, revId: Id, now: int, stamp: Stamp)
    requires CommitSync(db, env, id, read, f, revId, now, stamp).Ok?
    ensures var v, w := db.sources[id], CommitSync(db, env, id, read, f, revId, now, stamp).value.sources[id];
            var r := f.response;
            && (!r.notModified ==> w.etag == r.etag && w.lastModified == r.lastModified)
            && (r.notModified ==> w.etag == if r.etag == "" then v.etag else r.etag)
            && (r.notModified ==> w.lastModified == if r.lastModified == "" then v.lastModified else r.lastModified)
  {
  }

  /** Pinned sources, sources without an address and sources that a connector serves are not fetched; the rest is
      fetched with the validators of the row, parsed for its protocol, and sampled only when it may go live by
      itself. */
  lemma PlanMeans(env: Env, id: Id, src: Source, conditional: Headers, sampling: Headers)
    ensures var plan := PlanSync(env, id, src, conditional, sampling);
            && (plan == Refused <==> src.settings.policy == Pinned || src.url == "")
            && (plan == Delegated ==> src.protocol in env.connectors)
            && (plan.Ready? && !plan.f.response.notModified ==>
                  && plan.f.hash == plan.f.response.hash
                  && env.parse(plan.f.hash, src.protocol, src.url) == Some(plan.f.parsed)
                  && (plan.f.sample.Some? <==> src.settings.policy == Auto && src.protocol !in BOOKS)
                  && (plan.f.sample.Some? ==>
                        plan.f.sample.value == env.sample(id, src.protocol, src.url, src.settings, sampling,
                                                          plan.f.parsed)))
            && (plan.Ready? && plan.f.response.notModified ==> plan.f.hash == "")
            && (plan.Ready? ==> Some(plan.f.response) == env.fetch(src.url, src.settings.network, src.settings.trust,
                                                                   src.settings.proxyId, conditional, src.etag,
                                                                   src.lastModified))
            && (plan.Malformed? ==> env.parse(plan.hash, src.protocol, src.url) == None)
  {
  }

  // ---- local content ----

  /** Local content is staged unless it already waits there; the content in use is refused. */
  lemma StageDecides(db: DB, id: Id, read: Stamp, hash: string, n: Normalized, revId: Id, stamp: Stamp)
    requires id in db.sources && db.sources[id].updatedAt == read
    requires var v := db.sources[id];
             (v.active == "" || v.active in db.revisions) && (v.staged == "" || v.staged in db.revisions)
    ensures var v, r := db.sources[id], CommitStage(db, id, read, hash, n, revId, stamp);
            if v.staged != "" && db.revisions[v.staged].hash == hash then r == Ok(db)
            else if v.active != "" && db.revisions[v.active].hash == hash then r == Err(Identical)
            else
              && r.Ok? && OnlySource(db, r.value, id) && OnlyRevision(db, r.value, revId)
              && r.value.revisions[revId] == Revision(id, hash, n, Staged)
              && var w := r.value.sources[id];
                 Keeps(v, w) && SameHealth(v, w) && SameTimes(v, w) && w.enabled == v.enabled && w.active == v.active
                 && w.staged == revId && w.updatedAt == stamp
  {
  }

  lemma StageIsStale(db: DB, id: Id, read: Stamp, hash: string, n: Normalized, revId: Id, stamp: Stamp)
    requires id in db.sources && db.sources[id].updatedAt != read
    ensures CommitStage(db, id, read, hash, n, revId, stamp) == Err(Conflict)
  {
  }

  // ---- actions of an operator ----

  /** The revision that an approval is about: the one named, or the one waiting for review. */
  function Meant(v: Source, revision: Id): Id { if revision != "" then revision else v.staged }

  /** Approval takes a revision of the source that parsed; together with enabling only the one the operator saw waiting;
      a rollback only one that was approved before. */
  lemma ApprovalAdmits(db: DB, id: Id, a: Action, revision: Id, stamp: Stamp)
    requires a == Approve || a == ApproveEnable || a == Rollback
    ensures Acted(db, id, a, revision, stamp).Ok? <==>
              && id in db.sources
              && var v := db.sources[id]; var r := Meant(v, revision);
                 && r in db.revisions && db.revisions[r].sourceId == id && db.revisions[r].status != Invalid
                 && (a == ApproveEnable ==> revision != "" && revision == v.staged && db.revisions[r].status == Staged)
                 && (a == Rollback ==> db.revisions[r].status == Approved)
  {
  }

  /** The revision meant becomes the approved one in use and no longer waits; a rollback pins the source, and
      approving with enabling enables it. */
  lemma ApprovalMeans(db: DB, id: Id, a: Action, revision: Id, stamp: Stamp)
    requires a == Approve || a == ApproveEnable || a == Rollback
    requires Acted(db, id, a, revision, stamp).Ok?
    ensures var v, after := db.sources[id], Acted(db, id, a, revision, stamp).value;
            var r, w := Meant(v, revision), after.sources[id];
            && OnlySource(db, after, id) && after.revisions == db.revisions[r := db.revisions[r].(status := Approved)]
            && after.headers == db.headers
            && SameIdentity(v, w) && SameTimes(v, w) && w.failures == v.failures && w.updatedAt == stamp
            && w.active == r && w.staged == (if v.staged == r then "" else v.staged)
            && w.settings == (if a == Rollback then v.settings.(policy := Pinned) else v.settings)
            && w.enabled == (v.enabled || a == ApproveEnable)
  {
  }

  /** An approval starts an unheld source at 60; quarantine stays, and only approving with
      enabling lifts what was disabled. */
  lemma ApprovalHealth(db: DB, id: Id, a: Action, revision: Id, stamp: Stamp)
    requires a == Approve || a == ApproveEnable || a == Rollback
    requires Acted(db, id, a, revision, stamp).Ok?
    ensures var v, w := db.sources[id], Acted(db, id, a, revision, stamp).value.sources[id];
            if v.health == Quarantined || (v.health == Disabled && a != ApproveEnable)
            then w.health == v.health && w.score == v.score
            else w.health == Degraded && w.score == 60
  {
  }

  /** Rejecting marks what waits as rejected and takes it off the source; what is in use stays in use. */
  lemma RejectMeans(db: DB, id: Id, revision: Id, stamp: Stamp)
    ensures Acted(db, id, Reject, revision, stamp).Ok? <==>
              id in db.sources && db.sources[id].staged != "" && db.sources[id].staged in db.revisions
    ensures Acted(db, id, Reject, revision, stamp).Ok? ==>
              var v, after := db.sources[id], Acted(db, id, Reject, revision, stamp).value;
              && OnlySource(db, after, id)
              && after.revisions == db.revisions[v.staged := db.revisions[v.staged].(status := Rejected)]
              && after.sources[id] == v.(staged := "", updatedAt := stamp)
  {
  }

  /** Enabling needs something in use, and makes a disabled source one of unknown health; disabling, quarantine and
      release change availability and health and nothing else. */
  lemma SwitchMeans(db: DB, id: Id, a: Action, revision: Id, stamp: Stamp)
    requires a == Enable || a == Action.Disable || a == Quarantine || a == Release
    ensures Acted(db, id, a, revision, stamp).Ok? <==>
              && id in db.sources && (a == Enable ==> db.sources[id].active != "")
              && (a == Release ==> db.sources[id].health == Quarantined)
    ensures Acted(db, id, a, revision, stamp).Ok? ==>
              var v, after := db.sources[id], Acted(db, id, a, revision, stamp).value;
              var w := after.sources[id];
              && OnlySource(db, after, id) && after.revisions == db.revisions && after.headers == db.headers
              && Keeps(v, w) && SameTimes(v, w) && w.active == v.active && w.staged == v.staged && w.updatedAt == stamp
              && w.enabled == (if a == Enable then true else if a == Action.Disable then false else v.enabled)
              && w.failures == (if a == Release then 0 else v.failures)
              && w.health == (if a == Action.Disable then Health.Disabled
                              else if a == Quarantine then Quarantined
                              else if a == Release || v.health == Health.Disabled then Unknown
                              else v.health)
              && w.score == (if a == Quarantine || a == Release || (a == Enable && v.health == Health.Disabled) then 0
                             else v.score)
  {
  }

  // ---- import, edits, deletion ----

  /** A new source is disabled, of unknown health, with its first content waiting for review and nothing in use. */
  lemma ImportMeans(db: DB, env: Env, id: Id, v: Source, revId: Id, hash: string, n: Normalized, h: Option<Headers>,
                    stamp: Stamp)
    requires id !in db.sources && revId !in db.revisions
    requires v == NewSource(v.protocol, v.url, v.catalogId, v.settings, revId, stamp)
    requires Admitted(db, env, id, v, revId, hash, n, h).Ok?
    ensures var after := Admitted(db, env, id, v, revId, hash, n, h).value;
            && after.sources == db.sources[id := after.sources[id]]
            && after.revisions == db.revisions[revId := Revision(id, hash, n, Staged)]
            && (forall o | o in db.headers && o != id :: o in after.headers && after.headers[o] == db.headers[o])
            && (h.Some? ==> HeadersOf(after, id) == h.value) && (h.None? ==> after.headers == db.headers)
            && var w := after.sources[id];
               !w.enabled && w.health == Unknown && w.score == 0 && w.failures == 0 && w.active == ""
                 && w.staged == revId
               && Keeps(v, w) && w.updatedAt == stamp
  {
  }

  /** An edit sets what it names and keeps proxy, mode and media types that it does not name. */
  lemma EditedSettingsMean(s: Settings, e: Edit)
    ensures var t := EditedSettings(s, e);
            && t.name == e.name && t.trust == e.trust && t.network == e.network && t.policy == e.policy
            && t.intervalMinutes == e.intervalMinutes && t.probeMinutes == e.probeMinutes
            && t.smokeKeyword == e.smokeKeyword && t.hubPluginId == e.hubPluginId && t.runtimeId == e.runtimeId
            && t.proxyId == (match e.proxyId case None => s.proxyId case Some(x) => x)
            && t.hubProxyMode == (match e.hubProxyMode case None => s.hubProxyMode case Some(x) => x)
            && t.mode == (if e.mode == "" then s.mode else e.mode)
            && t.mediaTypes == (if e.mediaTypes == [] then s.mediaTypes else e.mediaTypes)
  {
  }

  /** It cannot change protocol or address, and lets the next probe come at once. */
  lemma EditMeans(db: DB, env: Env, id: Id, e: Edit, stamp: Stamp)
    requires Edited(db, env, id, e, stamp).Ok?
    ensures id in db.sources && e.url == db.sources[id].url
            && (e.protocol == "" || e.protocol == db.sources[id].protocol)
    ensures var v, after := db.sources[id], Edited(db, env, id, e, stamp).value;
            var w := after.sources[id];
            && OnlySource(db, after, id) && after.revisions == db.revisions
            && SameIdentity(v, w) && SameReview(v, w) && w.failures == v.failures && w.updatedAt == stamp
            && w.nextProbe == 0 && w.nextSync == v.nextSync && w.lastChecked == v.lastChecked
            && HeadersOf(after, id) == (if e.headers.Some? then e.headers.value else HeadersOf(db, id))
            && w.settings == EditedSettings(v.settings, e)
  {
  }

  /** New settings and new credentials make what was measured unknown, unless an operator holds the source. */
  lemma ChangeForgetsHealth(db: DB, env: Env, id: Id, e: Edit, h: Headers, stamp: Stamp)
    requires id in db.sources
    ensures var v := db.sources[id];
            forall after | Edited(db, env, id, e, stamp) == Ok(after) || Rekeyed(db, id, h, stamp) == Ok(after) ::
              if v.health == Quarantined || v.health == Disabled
              then after.sources[id].health == v.health && after.sources[id].score == v.score
              else after.sources[id].health == Unknown && after.sources[id].score == 0
  {
  }

  lemma RekeyMeans(db: DB, id: Id, h: Headers, stamp: Stamp)
    ensures Rekeyed(db, id, h, stamp).Ok? <==> id in db.sources
    ensures id in db.sources ==>
              var v, after := db.sources[id], Rekeyed(db, id, h, stamp).value;
              && OnlySource(db, after, id) && after.revisions == db.revisions && after.headers == db.headers[id := h]
              && Keeps(v, after.sources[id]) && SameReview(v, after.sources[id]) && SameTimes(v, after.sources[id])
              && after.sources[id].failures == v.failures && after.sources[id].updatedAt == stamp
  {
  }

  /** A deleted source leaves nothing behind: neither revisions nor credentials. */
  lemma DeleteMeans(db: DB, id: Id)
    ensures Removed(db, id).Ok? <==> id in db.sources
    ensures id in db.sources ==>
              var after := Removed(db, id).value;
              && after.sources == db.sources - {id} && after.headers == db.headers - {id}
              && (forall r :: r in after.revisions <==> r in db.revisions && db.revisions[r].sourceId != id)
              && forall r | r in after.revisions :: after.revisions[r] == db.revisions[r]
  {
  }

  /** Archiving disables; taking it back only takes the entry out of the archive. */
  lemma ArchiveMeans(db: DB, id: Id, stamp: Stamp)
    requires id in db.sources
    ensures SoftDeleted(db, id, stamp)
         == Ok(DB(db.sources[id := db.sources[id].(enabled := false, health := Disabled, updatedAt := stamp)],
                  db.revisions, db.headers, db.deleted + {id}))
    ensures Undeleted(db, id, stamp)
         == if id !in db.deleted then Err(NotFound)
            else Ok(DB(db.sources[id := db.sources[id].(updatedAt := stamp)], db.revisions, db.headers,
                       db.deleted - {id}))
  {
  }

  // ---- the scheduler ----

  /** An enabled source in use is probed when its time has come, every probe interval, and every half hour while
      it is avoided without one. */
  lemma ProbeSchedule(v: Source, now: int)
    ensures var due := v.enabled && v.active != "" && v.nextProbe <= now && (v.settings.probeMinutes > 0
                                                                             || v.health == Avoid);
            Scheduled(v, now).nextProbe
            == if !due then v.nextProbe
               else if v.settings.probeMinutes > 0 then now + 60 * v.settings.probeMinutes
               else now + 1800
  {
  }

  /** An enabled source with an address is synced when its time has come, unless it is pinned or synced by hand. */
  lemma SyncSchedule(v: Source, now: int)
    ensures var due := v.enabled && v.url != "" && v.nextSync <= now && (v.settings.policy == Auto
                                                                         || v.settings.policy == Review);
            Scheduled(v, now).nextSync == if due then now + 60 * v.settings.intervalMinutes else v.nextSync
    ensures Scheduled(v, now).(nextSync := v.nextSync, nextProbe := v.nextProbe) == v
  {
  }
}
