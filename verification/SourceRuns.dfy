/** Runs of the control plane in which long operations read, work and commit while everything else goes on. */
module SourceRuns {
  import opened Common
  import opened Model
  import opened Difference
  import opened Sources

  /** A long operation between its first read and its commit, with what it has read so far. */
  datatype Op =
    | SyncOp(id: Id, src: Source, conditional: Option<Headers>, sampling: Option<Headers>)
    | ProbeOp(id: Id, src: Source, content: Option<Normalized>, credentials: Option<Headers>)
    | StageOp(id: Id, src: Source, hash: string, n: Normalized)

  datatype World = World(db: DB, ops: map<nat, Op>, stamps: set<Stamp>)

  datatype Event =
    | Admit(id: Id, v: Source, revId: Id, hash: string, n: Normalized, h: Option<Headers>, stamp: Stamp)
    | EditTx(id: Id, ed: Edit, stamp: Stamp)
    | Rekey(id: Id, headers: Headers, stamp: Stamp)
    | Act(id: Id, a: Action, revision: Id, stamp: Stamp)
    | SoftDelete(id: Id, stamp: Stamp)
    | Undo(id: Id, stamp: Stamp)
    | Delete(id: Id)
    | Tick(now: int)
    | Open(o: nat, op: Op)
    | ReadConditional(o: nat)
    | ReadSampling(o: nat)
    | ReadContent(o: nat)
    | ReadCredentials(o: nat)
    | RecordInvalid(o: nat, revId: Id)
    | Commit(o: nat, revId: Id, now: int, stamp: Stamp)
    | Drop(o: nat)

  /** The operation has read all it needs and has something to commit. */
  predicate Complete(env: Env, op: Op) {
    match op
    case SyncOp(id, src, c, s) =>
      c.Some? && s.Some? && !PlanSync(env, id, src, c.value, s.value).Refused?
        && !PlanSync(env, id, src, c.value, s.value).Delegated?
    case ProbeOp(_, _, content, credentials) => content.Some? && credentials.Some?
    case StageOp(_, _, _, _) => true
  }

  function CommitOp(env: Env, db: DB, op: Op, revId: Id, now: int, stamp: Stamp): Result<DB, Error>
    requires Complete(env, op)
  {
    match op
    case SyncOp(id, src, c, s) =>
      (match PlanSync(env, id, src, c.value, s.value)
       case Ready(f) => CommitSync(db, env, id, src.updatedAt, f, revId, now, stamp)
       case _ => CommitProbe(db, id, src, Probe(false, false), now, stamp))
    case ProbeOp(id, src, content, credentials) =>
      CommitProbe(db, id, src, env.sample(id, src.protocol, src.url, src.settings, credentials.value, content.value),
                  now, stamp)
    case StageOp(id, src, hash, n) => CommitStage(db, id, src.updatedAt, hash, n, revId, stamp)
  }

  predicate Freshly(env: Env, db: DB, op: Op) {
    && op.id in db.sources && op.src == db.sources[op.id]
    && match op
       case SyncOp(_, _, c, s) => c.None? && s.None?
       case ProbeOp(_, _, content, credentials) => content.None? && credentials.None?
       case StageOp(_, src, hash, n) => src.url == "" && env.parse(hash, src.protocol, "") == Some(n)
  }

  /** The same operation with its whole read phase run on db. */
  function Reread(env: Env, db: DB, op: Op): Op
    requires op.id in db.sources
  {
    var v := db.sources[op.id];
    match op
    case SyncOp(id, _, _, _) => SyncOp(id, v, Some(HeadersOf(db, id)), Some(HeadersOf(db, id)))
    case ProbeOp(id, _, _, _) =>
      var r := ProbedRevision(v);
      ProbeOp(id, v, if r in db.revisions then Some(db.revisions[r].normalized) else None, Some(HeadersOf(db, id)))
    case StageOp(id, _, hash, n) =>
      var parsed := env.parse(hash, v.protocol, "");
      StageOp(id, v, hash, if parsed.Some? then parsed.value else n)
  }

  function Stamped(e: Event): set<Stamp> {
    match e
    case Admit(_, v, _, _, _, _, stamp) => {stamp}
    case EditTx(_, _, stamp) => {stamp}
    case Rekey(_, _, stamp) => {stamp}
    case Act(_, _, _, stamp) => {stamp}
    case SoftDelete(_, stamp) => {stamp}
    case Undo(_, stamp) => {stamp}
    case Commit(_, _, _, stamp) => {stamp}
    case _ => {}
  }

  ghost predicate Enabled(env: Env, w: World, e: Event) {
    && Stamped(e) !! w.stamps
    && match e
       case Admit(id, v, revId, hash, n, h, stamp) =>
         && id !in w.db.sources && revId !in w.db.revisions && revId != ""
         && v == NewSource(v.protocol, v.url, v.catalogId, v.settings, revId, stamp)
         && (v.protocol in env.connectors || exists hint ::
               env.parse(hash, hint, v.url) == Some(n) && n.protocol == v.protocol)
       case Open(o, op) => o !in w.ops && Freshly(env, w.db, op)
       case ReadConditional(o) => o in w.ops && w.ops[o].SyncOp? && w.ops[o].conditional.None?
       case ReadSampling(o) => o in w.ops && w.ops[o].SyncOp? && w.ops[o].sampling.None?
       case ReadContent(o) => o in w.ops && w.ops[o].ProbeOp? && w.ops[o].content.None?
         && ProbedRevision(w.ops[o].src) in w.db.revisions
       case ReadCredentials(o) => o in w.ops && w.ops[o].ProbeOp? && w.ops[o].credentials.None?
       case RecordInvalid(o, revId) =>
         && o in w.ops && w.ops[o].SyncOp? && Complete(env, w.ops[o])
         && PlanSync(env, w.ops[o].id, w.ops[o].src, w.ops[o].conditional.value, w.ops[o].sampling.value).Malformed?
         && revId !in w.db.revisions && revId != ""
       case Commit(o, revId, _, _) => o in w.ops && Complete(env, w.ops[o]) && revId !in w.db.revisions && revId != ""
       case _ => true
  }

  /** What the event's transaction, if it has one, does to the database. */
  function Tx(env: Env, w: World, e: Event): Result<DB, Error>
    requires Enabled(env, w, e)
  {
    match e
    case Admit(id, v, revId, hash, n, h, _) => Admitted(w.db, env, id, v, revId, hash, n, h)
    case EditTx(id, ed, stamp) => Edited(w.db, env, id, ed, stamp)
    case Rekey(id, h, stamp) => Rekeyed(w.db, id, h, stamp)
    case Act(id, a, revision, stamp) => Acted(w.db, id, a, revision, stamp)
    case SoftDelete(id, stamp) => SoftDeleted(w.db, id, stamp)
    case Undo(id, stamp) => Undeleted(w.db, id, stamp)
    case Delete(id) => Removed(w.db, id)
    case Tick(now) => Ok(Ticked(w.db, now))
    case RecordInvalid(o, revId) =>
      var op := w.ops[o];
      RecordedInvalid(w.db, op.id, revId, PlanSync(env, op.id, op.src, op.conditional.value, op.sampling.value).hash)
    case Commit(o, revId, now, stamp) => CommitOp(env, w.db, w.ops[o], revId, now, stamp)
    case _ => Ok(w.db)
  }

  function OpsAfter(w: World, e: Event): map<nat, Op> {
    match e
    case Open(o, op) => w.ops[o := op]
    case ReadConditional(o) =>
      if o in w.ops && w.ops[o].SyncOp? then w.ops[o := w.ops[o].(conditional := Some(HeadersOf(w.db, w.ops[o].id)))]
      else w.ops
    case ReadSampling(o) =>
      if o in w.ops && w.ops[o].SyncOp? then w.ops[o := w.ops[o].(sampling := Some(HeadersOf(w.db, w.ops[o].id)))]
      else w.ops
    case ReadContent(o) =>
      if o in w.ops && w.ops[o].ProbeOp? && ProbedRevision(w.ops[o].src) in w.db.revisions
      then w.ops[o := w.ops[o].(content := Some(w.db.revisions[ProbedRevision(w.ops[o].src)].normalized))] else w.ops
    case ReadCredentials(o) =>
      if o in w.ops && w.ops[o].ProbeOp? then w.ops[o := w.ops[o].(credentials := Some(HeadersOf(w.db, w.ops[o].id)))]
      else w.ops
    case Commit(o, _, _, _) => w.ops - {o}
    case Drop(o) => w.ops - {o}
    case _ => w.ops
  }

  function Apply(env: Env, w: World, e: Event): World
    requires Enabled(env, w, e)
  {
    World(if Tx(env, w, e).Ok? then Tx(env, w, e).value else w.db, OpsAfter(w, e), w.stamps + Stamped(e))
  }

  ghost predicate IsRun(env: Env, ws: seq<World>, es: seq<Event>) {
    && |ws| == |es| + 1
    && forall i | 0 <= i < |es| :: Enabled(env, ws[i], es[i]) && ws[i + 1] == Apply(env, ws[i], es[i])
  }

  ghost predicate Initial(w: World) { w.db == DB(map[], map[], map[], {}) && w.ops == map[] && w.stamps == {} }

  // ---- approval safety ----

  predicate Holds(db: DB, r: Id, id: Id, status: RevisionStatus) {
    r in db.revisions && db.revisions[r].sourceId == id && db.revisions[r].status == status
  }

  predicate RowApproved(db: DB, id: Id, v: Source) {
    && (v.enabled ==> v.active != "")
    && (v.active != "" ==> Holds(db, v.active, id, Approved))
    && (v.staged != "" ==> Holds(db, v.staged, id, Staged))
  }

  ghost predicate ApprovalOk(db: DB) {
    "" !in db.revisions && forall id | id in db.sources :: RowApproved(db, id, db.sources[id])
  }

  lemma RowPut(db: DB, id: Id, v: Source)
    requires ApprovalOk(db) && RowApproved(db, id, v)
    ensures ApprovalOk(PutSource(db, id, v))
  {
  }

  lemma RowAndRevisionPut(db: DB, id: Id, v: Source, rid: Id, r: Revision)
    requires ApprovalOk(db) && rid != "" && r.sourceId == id
             && (rid in db.revisions ==> db.revisions[rid].sourceId == id)
    requires RowApproved(PutRevision(db, rid, r), id, v)
    ensures ApprovalOk(PutRevision(PutSource(db, id, v), rid, r))
    ensures ApprovalOk(PutSource(PutRevision(db, rid, r), id, v))
  {
    assert PutRevision(PutSource(db, id, v), rid, r) == PutSource(PutRevision(db, rid, r), id, v);
    forall o | o in db.sources && o != id ensures RowApproved(PutRevision(db, rid, r), o, db.sources[o]) {
      assert RowApproved(db, o, db.sources[o]);
    }
  }

  lemma ActApproved(db: DB, id: Id, a: Action, revision: Id, stamp: Stamp)
    requires ApprovalOk(db) && Acted(db, id, a, revision, stamp).Ok?
    ensures ApprovalOk(Acted(db, id, a, revision, stamp).value)
  {
    var v := db.sources[id];
    assert RowApproved(db, id, v);
    match a
    case Approve | ApproveEnable | Rollback =>
      var rid := if revision == "" then v.staged else revision;
      RowAndRevisionPut(db, id, ApprovedRow(v, a, rid).(updatedAt := stamp), rid,
                        db.revisions[rid].(status := Approved));
    case Reject =>
      RowAndRevisionPut(db, id, v.(staged := "", updatedAt := stamp), v.staged,
                        db.revisions[v.staged].(status := Rejected));
    case Enable =>
    case Disable =>
    case Quarantine =>
    case Release =>
  }

  lemma SyncApproved(db: DB, env: Env, id: Id, read: Stamp, f: Fetched, revId: Id, now: int, stamp: Stamp)
    requires ApprovalOk(db) && revId != "" && revId !in db.revisions
    requires CommitSync(db, env, id, read, f, revId, now, stamp).Ok?
    ensures ApprovalOk(CommitSync(db, env, id, read, f, revId, now, stamp).value)
  {
    var v := db.sources[id];
    assert RowApproved(db, id, v);
    var row := Refreshed(v, f.response, now).(updatedAt := stamp);
    if f.hash == "" || KnownHash(db, id, v, f.hash) {
      RowPut(db, id, row);
    } else if AutoGate(db, env, v, f) {
      RowAndRevisionPut(db, id, row.(active := revId, staged := ""), revId, Revision(id, f.hash, f.parsed, Approved));
    } else {
      RowAndRevisionPut(db, id, row.(staged := revId), revId, Revision(id, f.hash, f.parsed, Staged));
    }
  }

  lemma CommitApproved(env: Env, db: DB, op: Op, revId: Id, now: int, stamp: Stamp)
    requires ApprovalOk(db) && Complete(env, op) && revId != "" && revId !in db.revisions
    requires CommitOp(env, db, op, revId, now, stamp).Ok?
    ensures ApprovalOk(CommitOp(env, db, op, revId, now, stamp).value)
  {
    var v := db.sources[op.id];
    assert RowApproved(db, op.id, v);
    match op
    case SyncOp(id, src, c, s) =>
      var plan := PlanSync(env, id, src, c.value, s.value);
      if plan.Ready? {
        SyncApproved(db, env, id, src.updatedAt, plan.f, revId, now, stamp);
      } else {
        RowPut(db, id, ProbedRow(v, Probe(false, false), now).(updatedAt := stamp));
      }
    case ProbeOp(id, src, content, credentials) =>
      var p := env.sample(id, src.protocol, src.url, src.settings, credentials.value, content.value);
      RowPut(db, id, ProbedRow(v, p, now).(updatedAt := stamp));
    case StageOp(id, src, hash, n) =>
      if CommitOp(env, db, op, revId, now, stamp).value != db {
        RowAndRevisionPut(db, id, v.(staged := revId, updatedAt := stamp), revId, Revision(id, hash, n, Staged));
      }
  }

  lemma EditedApproved(db: DB, env: Env, id: Id, ed: Edit, stamp: Stamp)
    requires ApprovalOk(db) && Edited(db, env, id, ed, stamp).Ok?
    ensures ApprovalOk(Edited(db, env, id, ed, stamp).value)
  {
    var v := db.sources[id];
    assert RowApproved(db, id, v);
    RowPut(db, id, Unmeasured(v.(settings := EditedSettings(v.settings, ed), nextProbe := 0)).(updatedAt := stamp));
  }

  lemma RekeyedApproved(db: DB, id: Id, h: Headers, stamp: Stamp)
    requires ApprovalOk(db) && Rekeyed(db, id, h, stamp).Ok?
    ensures ApprovalOk(Rekeyed(db, id, h, stamp).value)
  {
    assert RowApproved(db, id, db.sources[id]);
    RowPut(db, id, Unmeasured(db.sources[id]).(updatedAt := stamp));
  }

  lemma DeletionApproved(db: DB, id: Id, stamp: Stamp)
    requires ApprovalOk(db)
    ensures SoftDeleted(db, id, stamp).Ok? ==> ApprovalOk(SoftDeleted(db, id, stamp).value)
    ensures Undeleted(db, id, stamp).Ok? ==> ApprovalOk(Undeleted(db, id, stamp).value)
  {
    if id in db.sources {
      var v := db.sources[id];
      assert RowApproved(db, id, v);
      RowPut(db, id, v.(enabled := false, health := Health.Disabled, updatedAt := stamp));
      RowPut(db, id, v.(updatedAt := stamp));
    }
  }

  lemma PlainRowApproved(env: Env, w: World, e: Event)
    requires ApprovalOk(w.db) && Enabled(env, w, e) && (e.EditTx? || e.Rekey? || e.SoftDelete? || e.Undo?)
             && Tx(env, w, e).Ok?
    ensures ApprovalOk(Tx(env, w, e).value)
  {
    match e
    case EditTx(id, ed, stamp) => EditedApproved(w.db, env, id, ed, stamp);
    case Rekey(id, h, stamp) => RekeyedApproved(w.db, id, h, stamp);
    case SoftDelete(id, stamp) => DeletionApproved(w.db, id, stamp);
    case Undo(id, stamp) => DeletionApproved(w.db, id, stamp);
  }

  lemma RemoveApproved(db: DB, id: Id)
    requires ApprovalOk(db) && Removed(db, id).Ok?
    ensures ApprovalOk(Removed(db, id).value)
  {
    forall o | o in db.sources && o != id ensures RowApproved(Removed(db, id).value, o, db.sources[o]) {
      assert RowApproved(db, o, db.sources[o]);
    }
  }

  lemma TickApproved(db: DB, now: int)
    requires ApprovalOk(db)
    ensures ApprovalOk(Ticked(db, now))
  {
    forall o | o in db.sources ensures RowApproved(Ticked(db, now), o, Ticked(db, now).sources[o]) {
      assert RowApproved(db, o, db.sources[o]);
    }
  }

  lemma InvalidApproved(db: DB, id: Id, revId: Id, hash: string)
    requires ApprovalOk(db) && revId != "" && revId !in db.revisions && RecordedInvalid(db, id, revId, hash).Ok?
    ensures ApprovalOk(RecordedInvalid(db, id, revId, hash).value)
  {
    forall o | o in db.sources ensures RowApproved(RecordedInvalid(db, id, revId, hash).value, o, db.sources[o]) {
      assert RowApproved(db, o, db.sources[o]);
    }
  }

  lemma ApprovalKept(env: Env, w: World, e: Event)
    requires ApprovalOk(w.db) && Enabled(env, w, e)
    ensures ApprovalOk(Apply(env, w, e).db)
  {
    if Tx(env, w, e).Err? { return; }
    match e
    case Admit(id, v, revId, hash, n, h, _) => RowAndRevisionPut(w.db, id, v, revId, Revision(id, hash, n, Staged));
    case Act(id, a, revision, stamp) => ActApproved(w.db, id, a, revision, stamp);
    case Delete(id) => RemoveApproved(w.db, id);
    case Tick(now) => TickApproved(w.db, now);
    case Commit(o, revId, now, stamp) => CommitApproved(env, w.db, w.ops[o], revId, now, stamp);
    case RecordInvalid(o, revId) =>
      var op := w.ops[o];
      InvalidApproved(w.db, op.id, revId, PlanSync(env, op.id, op.src, op.conditional.value, op.sampling.value).hash);
    case EditTx(_, _, _) => PlainRowApproved(env, w, e);
    case Rekey(_, _, _) => PlainRowApproved(env, w, e);
    case SoftDelete(_, _) => PlainRowApproved(env, w, e);
    case Undo(_, _) => PlainRowApproved(env, w, e);
    case _ =>
  }

  predicate IsApproval(a: Action) { a == Approve || a == ApproveEnable || a == Rollback }

  /** The fetched content a sync commits, when it is one. */
  predicate CommitsFetch(env: Env, op: Op) {
    && op.SyncOp? && Complete(env, op)
    && PlanSync(env, op.id, op.src, op.conditional.value, op.sampling.value).Ready?
  }

  function FetchOf(env: Env, op: Op): Fetched
    requires CommitsFetch(env, op)
  {
    PlanSync(env, op.id, op.src, op.conditional.value, op.sampling.value).f
  }

  predicate AutoUpdates(env: Env, w: World, e: Event, id: Id) {
    && e.Commit? && e.o in w.ops && w.ops[e.o].id == id && id in w.db.sources
    && CommitsFetch(env, w.ops[e.o]) && AutoGate(w.db, env, w.db.sources[id], FetchOf(env, w.ops[e.o]))
  }

  /** The three outcomes of a sync that commits: nothing new, a gated update, something to review. */
  predicate SyncedTo(db: DB, id: Id, row: Source, f: Fetched, revId: Id, gated: bool, after: DB) {
    || after == PutSource(db, id, row)
    || (gated && after == PutRevision(PutSource(db, id, row.(active := revId, staged := "")), revId,
                                      Revision(id, f.hash, f.parsed, Approved)))
    || after == PutRevision(PutSource(db, id, row.(staged := revId)), revId, Revision(id, f.hash, f.parsed, Staged))
  }

  lemma SyncCases(db: DB, env: Env, id: Id, read: Stamp, f: Fetched, revId: Id, now: int, stamp: Stamp)
    requires CommitSync(db, env, id, read, f, revId, now, stamp).Ok?
    ensures id in db.sources
    ensures SyncedTo(db, id, Refreshed(db.sources[id], f.response, now).(updatedAt := stamp), f, revId,
                     AutoGate(db, env, db.sources[id], f), CommitSync(db, env, id, read, f, revId, now, stamp).value)
  {
  }

  lemma SyncedRow(db: DB, id: Id, row: Source, f: Fetched, revId: Id, gated: bool, after: DB)
    requires id in db.sources && SyncedTo(db, id, row, f, revId, gated, after)
    requires var v := db.sources[id]; row.enabled == v.enabled && row.health == v.health && row.score == v.score
                                      && row.failures == v.failures && row.active == v.active
    ensures var v, now := db.sources[id], after.sources[id];
            && after.sources.Keys == db.sources.Keys
            && (forall o | o in db.sources && o != id :: after.sources[o] == db.sources[o])
            && now.enabled == v.enabled && now.health == v.health && now.score == v.score && now.failures == v.failures
            && (now.active != v.active ==>
                  gated && now.active == revId
                    && after.revisions == db.revisions[revId := Revision(id, f.hash, f.parsed, Approved)])
  {
  }

  /** What a successful commit of fetched content leaves of the row's review state and health. */
  lemma SyncRow(db: DB, env: Env, id: Id, read: Stamp, f: Fetched, revId: Id, now: int, stamp: Stamp)
    requires CommitSync(db, env, id, read, f, revId, now, stamp).Ok?
    ensures var v, after := db.sources[id], CommitSync(db, env, id, read, f, revId, now, stamp).value;
            && after.sources.Keys == db.sources.Keys
            && (forall o | o in db.sources && o != id :: after.sources[o] == db.sources[o])
            && after.sources[id].enabled == v.enabled && after.sources[id].health == v.health
            && after.sources[id].score == v.score && after.sources[id].failures == v.failures
            && (after.sources[id].active != v.active ==>
                  && AutoGate(db, env, v, f) && after.sources[id].active == revId
                  && after.revisions == db.revisions[revId := Revision(id, f.hash, f.parsed, Approved)])
  {
    var v := db.sources[id];
    SyncCases(db, env, id, read, f, revId, now, stamp);
    SyncedRow(db, id, Refreshed(v, f.response, now).(updatedAt := stamp), f, revId, AutoGate(db, env, v, f),
              CommitSync(db, env, id, read, f, revId, now, stamp).value);
  }

  /** A successful commit that brings no fetched content leaves the active revision alone. */
  lemma OtherCommitRow(env: Env, db: DB, op: Op, revId: Id, now: int, stamp: Stamp)
    requires Complete(env, op) && !CommitsFetch(env, op) && CommitOp(env, db, op, revId, now, stamp).Ok?
    ensures op.id in db.sources
    ensures var v, after := db.sources[op.id], CommitOp(env, db, op, revId, now, stamp).value;
            && after.sources.Keys == db.sources.Keys
            && (forall o | o in db.sources && o != op.id :: after.sources[o] == db.sources[o])
            && after.sources[op.id].active == v.active && after.sources[op.id].enabled == v.enabled
            && ((after.sources[op.id].health == v.health && after.sources[op.id].score == v.score
                 && after.sources[op.id].failures == v.failures)
                || exists p :: Probes(v, after.sources[op.id], p, now))
  {
    match op
    case SyncOp(id, src, c, s) =>
      assert Probes(db.sources[id], CommitOp(env, db, op, revId, now, stamp).value.sources[id], Probe(false, false),
                    now);
    case ProbeOp(id, src, content, credentials) =>
      var p := env.sample(id, src.protocol, src.url, src.settings, credentials.value, content.value);
      assert Probes(db.sources[id], CommitOp(env, db, op, revId, now, stamp).value.sources[id], p, now);
    case StageOp(_, _, _, _) =>
  }

  ghost predicate Probes(v: Source, after: Source, p: Probe, now: int) {
    var row := ProbedRow(v, p, now);
    after.health == row.health && after.score == row.score && after.failures == row.failures
  }

  predicate SameEndpoint(was: DB, after: DB, id: Id)
    requires id in was.sources
  {
    id in after.sources ==>
      after.sources[id].protocol == was.sources[id].protocol && after.sources[id].url == was.sources[id].url
  }

  predicate SameUse(was: DB, after: DB, id: Id)
    requires id in was.sources
  {
    SameEndpoint(was, after, id) && (id in after.sources ==> after.sources[id].active == was.sources[id].active)
  }

  lemma EditedUse(db: DB, env: Env, o: Id, ed: Edit, stamp: Stamp, id: Id)
    requires Edited(db, env, o, ed, stamp).Ok? && id in db.sources
    ensures SameUse(db, Edited(db, env, o, ed, stamp).value, id)
  {
  }

  lemma RekeyedUse(db: DB, o: Id, h: Headers, stamp: Stamp, id: Id)
    requires Rekeyed(db, o, h, stamp).Ok? && id in db.sources
    ensures SameUse(db, Rekeyed(db, o, h, stamp).value, id)
  {
  }

  lemma AdmittedUse(db: DB, env: Env, o: Id, v: Source, revId: Id, hash: string, n: Normalized, h: Option<Headers>,
                    id: Id)
    requires Admitted(db, env, o, v, revId, hash, n, h).Ok? && o !in db.sources && id in db.sources
    ensures SameUse(db, Admitted(db, env, o, v, revId, hash, n, h).value, id)
  {
  }

  lemma DeletionUse(db: DB, o: Id, stamp: Stamp, id: Id)
    requires id in db.sources
    ensures SoftDeleted(db, o, stamp).Ok? ==> SameUse(db, SoftDeleted(db, o, stamp).value, id)
    ensures Undeleted(db, o, stamp).Ok? ==> SameUse(db, Undeleted(db, o, stamp).value, id)
    ensures Removed(db, o).Ok? ==> SameUse(db, Removed(db, o).value, id)
  {
  }

  /** Only an action or a commit can change what a source is in use with. */
  lemma QuietRow(env: Env, w: World, e: Event, id: Id)
    requires Enabled(env, w, e) && !e.Act? && !e.Commit? && id in w.db.sources
    ensures SameUse(w.db, Apply(env, w, e).db, id)
  {
    if Tx(env, w, e).Ok? {
      match e
      case Admit(o, v, revId, hash, n, h, stamp) => AdmittedUse(w.db, env, o, v, revId, hash, n, h, id);
      case EditTx(o, ed, stamp) => EditedUse(w.db, env, o, ed, stamp, id);
      case Rekey(o, h, stamp) => RekeyedUse(w.db, o, h, stamp, id);
      case SoftDelete(o, stamp) => DeletionUse(w.db, o, stamp, id);
      case Undo(o, stamp) => DeletionUse(w.db, o, stamp, id);
      case Delete(o) => DeletionUse(w.db, o, 0, id);
      case _ =>
    }
  }

  /** The active revision of a source changes only by an operator's approval or rollback, or through the full gate. */
  lemma ActiveStep(env: Env, w: World, e: Event, id: Id)
    requires Enabled(env, w, e) && id in w.db.sources && id in Apply(env, w, e).db.sources
    requires Apply(env, w, e).db.sources[id].active != w.db.sources[id].active
    ensures (e.Act? && e.id == id && IsApproval(e.a)) || AutoUpdates(env, w, e, id)
    ensures AutoUpdates(env, w, e, id) ==>
      && Apply(env, w, e).db.sources[id].active == e.revId
      && var f := FetchOf(env, w.ops[e.o]);
         Apply(env, w, e).db.revisions == w.db.revisions[e.revId := Revision(id, f.hash, f.parsed, Approved)]
  {
    if e.Commit? {
      CommitActive(env, w, e, id);
    } else if !e.Act? {
      QuietRow(env, w, e, id);
    }
  }

  lemma CommitActive(env: Env, w: World, e: Event, id: Id)
    requires Enabled(env, w, e) && e.Commit? && id in w.db.sources && id in Apply(env, w, e).db.sources
    requires Apply(env, w, e).db.sources[id].active != w.db.sources[id].active
    ensures AutoUpdates(env, w, e, id)
    ensures Apply(env, w, e).db.sources[id].active == e.revId
    ensures var f := FetchOf(env, w.ops[e.o]);
            Apply(env, w, e).db.revisions == w.db.revisions[e.revId := Revision(id, f.hash, f.parsed, Approved)]
  {
    var op := w.ops[e.o];
    assert Tx(env, w, e).Ok?;
    if CommitsFetch(env, op) {
      SyncRow(w.db, env, op.id, op.src.updatedAt, FetchOf(env, op), e.revId, e.now, e.stamp);
    } else {
      OtherCommitRow(env, w.db, op, e.revId, e.now, e.stamp);
    }
  }

  /** While a rejected revision with some content exists, no sync brings that content back for review or into use. */
  lemma RejectedContentStaysOut(env: Env, w: World, e: Event, r: Id, q: Id)
    requires Enabled(env, w, e) && e.Commit? && w.ops[e.o].SyncOp?
    requires r in Apply(env, w, e).db.revisions && r !in w.db.revisions
    requires q in w.db.revisions && w.db.revisions[q].status == Rejected
    ensures Apply(env, w, e).db.revisions[r].sourceId != w.db.revisions[q].sourceId
         || Apply(env, w, e).db.revisions[r].hash != w.db.revisions[q].hash
  {
    var op := w.ops[e.o];
    var plan := PlanSync(env, op.id, op.src, op.conditional.value, op.sampling.value);
  }

  // ---- health ----

  predicate HealthRow(v: Source) {
    && v.score in {0, 20, 40, 60, 100}
    && (v.health == Healthy ==> v.score == 100 && v.failures == 0)
    && (v.health == Degraded ==> v.score == 60 || (v.score == 40 && v.failures == 1))
    && (v.health == Failing ==> v.score == 20 && v.failures == 2)
    && (v.health == Avoid ==> v.score == 0 && v.failures >= 3)
    && (v.health == Unknown || v.health == Quarantined ==> v.score == 0)
  }

  ghost predicate HealthOk(db: DB) { forall id | id in db.sources :: HealthRow(db.sources[id]) }

  lemma ProbedHealth(v: Source, p: Probe, now: int)
    requires HealthRow(v)
    ensures HealthRow(ProbedRow(v, p, now))
    ensures Held(v.health) ==> ProbedRow(v, p, now).health == v.health && ProbedRow(v, p, now).score == v.score
  {
  }

  lemma ActedHealth(db: DB, id: Id, a: Action, revision: Id, stamp: Stamp)
    requires HealthOk(db) && Acted(db, id, a, revision, stamp).Ok?
    ensures HealthOk(Acted(db, id, a, revision, stamp).value)
  {
    assert HealthRow(db.sources[id]);
  }

  lemma CommitHealth(env: Env, db: DB, op: Op, revId: Id, now: int, stamp: Stamp, o: Id)
    requires Complete(env, op) && CommitOp(env, db, op, revId, now, stamp).Ok?
    requires o in db.sources && HealthRow(db.sources[o])
    ensures var after := CommitOp(env, db, op, revId, now, stamp).value;
            && after.sources.Keys == db.sources.Keys && HealthRow(after.sources[o])
            && (Held(db.sources[o].health) ==> after.sources[o].health == db.sources[o].health)
  {
    var v := db.sources[o];
    if CommitsFetch(env, op) {
      SyncRow(db, env, op.id, op.src.updatedAt, FetchOf(env, op), revId, now, stamp);
    } else {
      OtherCommitRow(env, db, op, revId, now, stamp);
      var after := CommitOp(env, db, op, revId, now, stamp).value;
      if o == op.id && !(after.sources[o].health == v.health && after.sources[o].score == v.score
                         && after.sources[o].failures == v.failures) {
        var p :| Probes(v, after.sources[o], p, now);
        ProbedHealth(v, p, now);
      }
    }
  }

  lemma UnmeasuredHealth(v: Source, s: Settings, nextProbe: int, stamp: Stamp)
    requires HealthRow(v)
    ensures var u := Unmeasured(v.(settings := s, nextProbe := nextProbe)).(updatedAt := stamp);
            HealthRow(u) && (Held(v.health) ==> u.health == v.health)
    ensures var u := Unmeasured(v).(updatedAt := stamp); HealthRow(u) && (Held(v.health) ==> u.health == v.health)
  {
  }

  lemma ScheduledHealth(v: Source, now: int)
    requires HealthRow(v)
    ensures HealthRow(Scheduled(v, now)) && Scheduled(v, now).health == v.health
  {
  }

  lemma EditedHealth(db: DB, env: Env, id: Id, ed: Edit, stamp: Stamp, o: Id)
    requires Edited(db, env, id, ed, stamp).Ok? && o in db.sources && HealthRow(db.sources[o])
    ensures var after := Edited(db, env, id, ed, stamp).value;
            && after.sources.Keys == db.sources.Keys && HealthRow(after.sources[o])
            && (Held(db.sources[o].health) ==> after.sources[o].health == db.sources[o].health)
  {
    UnmeasuredHealth(db.sources[o], EditedSettings(db.sources[o].settings, ed), 0, stamp);
  }

  lemma RekeyedHealth(db: DB, id: Id, h: Headers, stamp: Stamp, o: Id)
    requires Rekeyed(db, id, h, stamp).Ok? && o in db.sources && HealthRow(db.sources[o])
    ensures var after := Rekeyed(db, id, h, stamp).value;
            && after.sources.Keys == db.sources.Keys && HealthRow(after.sources[o])
            && (Held(db.sources[o].health) ==> after.sources[o].health == db.sources[o].health)
  {
    UnmeasuredHealth(db.sources[o], db.sources[o].settings, 0, stamp);
  }

  /** Every event other than an operator's action keeps the health automaton in order and a held source held. */
  lemma QuietHealth(env: Env, w: World, e: Event, o: Id)
    requires Enabled(env, w, e) && !e.Act? && !e.SoftDelete? && o in w.db.sources && HealthRow(w.db.sources[o])
    ensures var after := Apply(env, w, e).db;
            o in after.sources ==>
              && HealthRow(after.sources[o])
              && (Held(w.db.sources[o].health) ==> after.sources[o].health == w.db.sources[o].health)
  {
    if e.Commit? && Tx(env, w, e).Ok? {
      CommitHealth(env, w.db, w.ops[e.o], e.revId, e.now, e.stamp, o);
    } else if e.EditTx? && Tx(env, w, e).Ok? {
      EditedHealth(w.db, env, e.id, e.ed, e.stamp, o);
    } else if e.Rekey? && Tx(env, w, e).Ok? {
      RekeyedHealth(w.db, e.id, e.headers, e.stamp, o);
    } else if e.Tick? {
      ScheduledHealth(w.db.sources[o], e.now);
    }
  }

  lemma HealthKept(env: Env, w: World, e: Event)
    requires HealthOk(w.db) && Enabled(env, w, e)
    ensures HealthOk(Apply(env, w, e).db)
  {
    var after := Apply(env, w, e).db;
    if e.Act? && Tx(env, w, e).Ok? {
      ActedHealth(w.db, e.id, e.a, e.revision, e.stamp);
    } else {
      forall o | o in after.sources ensures HealthRow(after.sources[o]) {
        if o in w.db.sources {
          if !e.Act? && !e.SoftDelete? { QuietHealth(env, w, e, o); }
        }
      }
    }
  }

  /** Nothing but an operator leaves quarantined or disabled: no probe, sync, edit, credential change or tick does. */
  lemma HeldUntilOperator(env: Env, w: World, e: Event, id: Id)
    requires Enabled(env, w, e) && HealthOk(w.db)
    requires id in w.db.sources && id in Apply(env, w, e).db.sources && Held(w.db.sources[id].health)
    requires Apply(env, w, e).db.sources[id].health != w.db.sources[id].health
    ensures (e.Act? && e.id == id && e.a in {ApproveEnable, Enable, Disable, Quarantine, Release})
            || (e.SoftDelete? && e.id == id)
  {
    if !e.Act? && !e.SoftDelete? {
      QuietHealth(env, w, e, id);
    }
  }

  // ---- optimistic commits ----

  /** Equal but for the two times the scheduler writes without a new version stamp. */
  predicate SameView(a: Source, b: Source) { a.(nextSync := 0, nextProbe := 0) == b.(nextSync := 0, nextProbe := 0) }

  /** What an operation has read is what its source still says, for as long as the source carries the stamp it read. */
  predicate StillCurrent(db: DB, op: Op)
    requires op.id in db.sources
  {
    && SameView(db.sources[op.id], op.src)
    && match op
       case SyncOp(id, _, c, s) => (c.Some? ==> c.value == HeadersOf(db, id))
         && (s.Some? ==> s.value == HeadersOf(db, id))
       case ProbeOp(id, src, content, credentials) =>
         && (content.Some? ==>
               ProbedRevision(src) in db.revisions && content.value == db.revisions[ProbedRevision(src)].normalized)
         && (credentials.Some? ==> credentials.value == HeadersOf(db, id))
       case StageOp(_, _, _, _) => true
  }

  ghost predicate OpOk(env: Env, db: DB, stamps: set<Stamp>, op: Op) {
    && op.src.updatedAt in stamps
    && (op.StageOp? ==> op.src.url == "" && env.parse(op.hash, op.src.protocol, "") == Some(op.n))
    && (op.id in db.sources && db.sources[op.id].updatedAt == op.src.updatedAt ==> StillCurrent(db, op))
  }

  ghost predicate StampsOk(w: World) { forall id | id in w.db.sources :: w.db.sources[id].updatedAt in w.stamps }

  ghost predicate OpsOk(env: Env, w: World) { forall o | o in w.ops :: OpOk(env, w.db, w.stamps, w.ops[o]) }

  ghost predicate Inv(env: Env, w: World) { ApprovalOk(w.db) && HealthOk(w.db) && StampsOk(w) && OpsOk(env, w) }

  predicate RowKept(was: DB, after: DB, id: Id)
    requires id in after.sources
  {
    && id in was.sources && after.sources[id].updatedAt == was.sources[id].updatedAt
    && SameView(after.sources[id], was.sources[id]) && HeadersOf(after, id) == HeadersOf(was, id)
  }

  /** What every committing transaction leaves alone, whatever it commits. */
  predicate CommitShape(was: DB, after: DB, id: Id, revId: Id, stamp: Stamp) {
    && after.sources.Keys == was.sources.Keys && id in was.sources && after.headers == was.headers
    && (forall o | o in was.sources && o != id :: after.sources[o] == was.sources[o])
    && after.sources[id].protocol == was.sources[id].protocol && after.sources[id].url == was.sources[id].url
    && after.sources[id].settings == was.sources[id].settings && after.sources[id].enabled == was.sources[id].enabled
    && (after.sources[id] == was.sources[id] || after.sources[id].updatedAt == stamp)
    && (|| after.revisions == was.revisions
        || (&& revId in after.revisions && after.revisions[revId].sourceId == id
            && after.revisions == was.revisions[revId := after.revisions[revId]]))
  }

  lemma RefreshedShape(v: Source, r: Response, now: int)
    ensures var row := Refreshed(v, r, now);
            row.protocol == v.protocol && row.url == v.url && row.settings == v.settings && row.enabled == v.enabled
  {
  }

  lemma SyncedShape(db: DB, id: Id, row: Source, f: Fetched, revId: Id, gated: bool, after: DB, stamp: Stamp)
    requires id in db.sources && SyncedTo(db, id, row, f, revId, gated, after) && row.updatedAt == stamp
    requires var v := db.sources[id];
             row.protocol == v.protocol && row.url == v.url && row.settings == v.settings && row.enabled == v.enabled
    ensures CommitShape(db, after, id, revId, stamp)
  {
  }

  lemma SyncShape(db: DB, env: Env, id: Id, read: Stamp, f: Fetched, revId: Id, now: int, stamp: Stamp)
    requires CommitSync(db, env, id, read, f, revId, now, stamp).Ok?
    ensures CommitShape(db, CommitSync(db, env, id, read, f, revId, now, stamp).value, id, revId, stamp)
  {
    var v := db.sources[id];
    SyncCases(db, env, id, read, f, revId, now, stamp);
    RefreshedShape(v, f.response, now);
    SyncedShape(db, id, Refreshed(v, f.response, now).(updatedAt := stamp), f, revId, AutoGate(db, env, v, f),
                CommitSync(db, env, id, read, f, revId, now, stamp).value, stamp);
  }

  lemma ProbeShape(db: DB, id: Id, read: Source, p: Probe, revId: Id, now: int, stamp: Stamp)
    requires CommitProbe(db, id, read, p, now, stamp).Ok?
    ensures CommitShape(db, CommitProbe(db, id, read, p, now, stamp).value, id, revId, stamp)
  {
  }

  lemma StageShape(db: DB, id: Id, read: Stamp, hash: string, n: Normalized, revId: Id, stamp: Stamp)
    requires CommitStage(db, id, read, hash, n, revId, stamp).Ok?
    ensures CommitShape(db, CommitStage(db, id, read, hash, n, revId, stamp).value, id, revId, stamp)
  {
  }

  lemma CommitHasShape(env: Env, db: DB, op: Op, revId: Id, now: int, stamp: Stamp)
    requires Complete(env, op) && CommitOp(env, db, op, revId, now, stamp).Ok?
    ensures CommitShape(db, CommitOp(env, db, op, revId, now, stamp).value, op.id, revId, stamp)
  {
    match op
    case SyncOp(id, src, c, s) =>
      var plan := PlanSync(env, id, src, c.value, s.value);
      if plan.Ready? {
        SyncShape(db, env, id, src.updatedAt, plan.f, revId, now, stamp);
      } else {
        ProbeShape(db, id, src, Probe(false, false), revId, now, stamp);
      }
    case ProbeOp(id, src, content, credentials) =>
      ProbeShape(db, id, src, env.sample(id, src.protocol, src.url, src.settings, credentials.value, content.value),
                 revId, now, stamp);
    case StageOp(id, src, hash, n) => StageShape(db, id, src.updatedAt, hash, n, revId, stamp);
  }

  lemma ActHasShape(db: DB, id: Id, a: Action, revision: Id, stamp: Stamp)
    requires Acted(db, id, a, revision, stamp).Ok?
    ensures var after := Acted(db, id, a, revision, stamp).value;
            && after.sources.Keys == db.sources.Keys && after.headers == db.headers
            && (forall o | o in db.sources && o != id :: after.sources[o] == db.sources[o])
            && after.sources[id].updatedAt == stamp
            && after.sources[id].protocol == db.sources[id].protocol && after.sources[id].url == db.sources[id].url
            && after.revisions.Keys == db.revisions.Keys
            && (forall r | r in db.revisions ::
                  after.revisions[r].(status := Staged) == db.revisions[r].(status := Staged))
  {
  }

  /** One row gets the stamp, the others stay. */
  predicate StampsOne(was: DB, after: DB, id: Id, stamp: Stamp, o: Id) {
    o in after.sources ==> RowKept(was, after, o) || (o == id && after.sources[o].updatedAt == stamp)
  }

  lemma PutStamps(db: DB, id: Id, v: Source, h: Headers, o: Id)
    ensures StampsOne(db, PutSource(db, id, v), id, v.updatedAt, o)
    ensures StampsOne(db, PutSource(db, id, v).(headers := db.headers[id := h]), id, v.updatedAt, o)
  {
  }

  lemma EditedStamps(db: DB, env: Env, id: Id, ed: Edit, stamp: Stamp, o: Id)
    requires Edited(db, env, id, ed, stamp).Ok?
    ensures StampsOne(db, Edited(db, env, id, ed, stamp).value, id, stamp, o)
  {
    var v := db.sources[id];
    PutStamps(db, id, Unmeasured(v.(settings := EditedSettings(v.settings, ed), nextProbe := 0)).(updatedAt := stamp),
              if ed.headers.Some? then ed.headers.value else map[], o);
  }

  lemma RekeyedStamps(db: DB, id: Id, h: Headers, stamp: Stamp, o: Id)
    requires Rekeyed(db, id, h, stamp).Ok?
    ensures StampsOne(db, Rekeyed(db, id, h, stamp).value, id, stamp, o)
  {
    PutStamps(db, id, Unmeasured(db.sources[id]).(updatedAt := stamp), h, o);
  }

  lemma DeletionStamps(db: DB, id: Id, stamp: Stamp, o: Id)
    ensures SoftDeleted(db, id, stamp).Ok? ==> StampsOne(db, SoftDeleted(db, id, stamp).value, id, stamp, o)
    ensures Undeleted(db, id, stamp).Ok? ==> StampsOne(db, Undeleted(db, id, stamp).value, id, stamp, o)
    ensures Removed(db, id).Ok? && o in Removed(db, id).value.sources ==> RowKept(db, Removed(db, id).value, o)
  {
    if id in db.sources {
      var v := db.sources[id];
      PutStamps(db, id, v.(enabled := false, health := Health.Disabled, updatedAt := stamp), map[], o);
      PutStamps(db, id, v.(updatedAt := stamp), map[], o);
    }
  }

  lemma AdmittedStamps(db: DB, env: Env, id: Id, v: Source, revId: Id, hash: string, n: Normalized, h: Option<Headers>,
                       o: Id)
    requires Admitted(db, env, id, v, revId, hash, n, h).Ok?
    ensures StampsOne(db, Admitted(db, env, id, v, revId, hash, n, h).value, id, v.updatedAt, o)
  {
  }

  lemma ScheduledKeeps(v: Source, now: int)
    ensures Scheduled(v, now).updatedAt == v.updatedAt && SameView(Scheduled(v, now), v)
  {
  }

  lemma CommitStamps(env: Env, db: DB, op: Op, revId: Id, now: int, stamp: Stamp, o: Id)
    requires Complete(env, op) && CommitOp(env, db, op, revId, now, stamp).Ok?
    ensures StampsOne(db, CommitOp(env, db, op, revId, now, stamp).value, op.id, stamp, o)
  {
    CommitHasShape(env, db, op, revId, now, stamp);
  }

  /** Every event either leaves a row's version, contents and credentials together, or
      gives it the event's new stamp. */
  lemma KeepsOrStamps(env: Env, w: World, e: Event, o: Id)
    requires Enabled(env, w, e) && o in Apply(env, w, e).db.sources
    ensures RowKept(w.db, Apply(env, w, e).db, o) || Apply(env, w, e).db.sources[o].updatedAt in Stamped(e)
  {
    if Tx(env, w, e).Ok? {
      match e
      case Admit(id, v, revId, hash, n, h, stamp) => AdmittedStamps(w.db, env, id, v, revId, hash, n, h, o);
      case EditTx(id, ed, stamp) => EditedStamps(w.db, env, id, ed, stamp, o);
      case Rekey(id, h, stamp) => RekeyedStamps(w.db, id, h, stamp, o);
      case Act(id, a, revision, stamp) => ActHasShape(w.db, id, a, revision, stamp);
      case SoftDelete(id, stamp) => DeletionStamps(w.db, id, stamp, o);
      case Undo(id, stamp) => DeletionStamps(w.db, id, stamp, o);
      case Delete(id) => DeletionStamps(w.db, id, 0, o);
      case Tick(now) => ScheduledKeeps(w.db.sources[o], now);
      case Commit(_, revId, now, stamp) => CommitStamps(env, w.db, w.ops[e.o], revId, now, stamp, o);
      case _ =>
    }
  }

  /** The content of a revision never changes while its source exists. */
  lemma ContentKept(env: Env, w: World, e: Event, r: Id)
    requires Enabled(env, w, e) && r in w.db.revisions
    requires w.db.revisions[r].sourceId in Apply(env, w, e).db.sources
    ensures var after := Apply(env, w, e).db;
            r in after.revisions && after.revisions[r].normalized == w.db.revisions[r].normalized
            && after.revisions[r].sourceId == w.db.revisions[r].sourceId
            && after.revisions[r].hash == w.db.revisions[r].hash
  {
    if e.Act? && Tx(env, w, e).Ok? {
      ActHasShape(w.db, e.id, e.a, e.revision, e.stamp);
    } else if e.Commit? && Tx(env, w, e).Ok? {
      CommitHasShape(env, w.db, w.ops[e.o], e.revId, e.now, e.stamp);
    }
  }

  lemma StampsKept(env: Env, w: World, e: Event)
    requires StampsOk(w) && Enabled(env, w, e)
    ensures StampsOk(Apply(env, w, e))
  {
    var w' := Apply(env, w, e);
    forall id | id in w'.db.sources ensures w'.db.sources[id].updatedAt in w'.stamps {
      KeepsOrStamps(env, w, e, id);
    }
  }

  /** An operation that this event does not move stays in step with its source. */
  lemma OpKept(env: Env, w: World, e: Event, op: Op)
    requires Inv(env, w) && Enabled(env, w, e) && OpOk(env, w.db, w.stamps, op)
    ensures OpOk(env, Apply(env, w, e).db, Apply(env, w, e).stamps, op)
  {
    var w' := Apply(env, w, e);
    if op.id in w'.db.sources && w'.db.sources[op.id].updatedAt == op.src.updatedAt {
      KeepsOrStamps(env, w, e, op.id);
      assert RowKept(w.db, w'.db, op.id);
      if op.ProbeOp? && op.content.Some? {
        var r := ProbedRevision(op.src);
        assert RowApproved(w.db, op.id, w.db.sources[op.id]);
        ContentKept(env, w, e, r);
      }
    }
  }

  /** Opening an operation or taking one more read leaves it in step. */
  lemma OpMoved(env: Env, w: World, e: Event, o: nat)
    requires Inv(env, w) && Enabled(env, w, e) && o in OpsAfter(w, e)
    ensures OpOk(env, w.db, w.stamps, OpsAfter(w, e)[o])
  {
    if o in w.ops {
      assert OpOk(env, w.db, w.stamps, w.ops[o]);
    }
  }

  lemma OpsKept(env: Env, w: World, e: Event)
    requires Inv(env, w) && Enabled(env, w, e)
    ensures OpsOk(env, Apply(env, w, e))
  {
    var w' := Apply(env, w, e);
    forall o | o in w'.ops ensures OpOk(env, w'.db, w'.stamps, w'.ops[o]) {
      OpMoved(env, w, e, o);
      OpKept(env, w, e, w'.ops[o]);
    }
  }

  lemma {:induction false} InvInRun(env: Env, ws: seq<World>, es: seq<Event>, i: nat)
    requires IsRun(env, ws, es) && Initial(ws[0]) && i < |ws|
    ensures Inv(env, ws[i])
  {
    if i > 0 {
      InvInRun(env, ws, es, i - 1);
      ApprovalKept(env, ws[i - 1], es[i - 1]);
      HealthKept(env, ws[i - 1], es[i - 1]);
      StampsKept(env, ws[i - 1], es[i - 1]);
      OpsKept(env, ws[i - 1], es[i - 1]);
    }
  }

  lemma SameReads(env: Env, db: DB, op: Op)
    requires ApprovalOk(db) && op.id in db.sources && StillCurrent(db, op) && Complete(env, op)
    requires op.StageOp? ==> env.parse(op.hash, op.src.protocol, "") == Some(op.n)
    ensures Complete(env, Reread(env, db, op))
    ensures op.SyncOp? ==>
      var again := Reread(env, db, op);
      PlanSync(env, op.id, again.src, again.conditional.value, again.sampling.value)
      == PlanSync(env, op.id, op.src, op.conditional.value, op.sampling.value)
    ensures op.ProbeOp? ==>
      var again := Reread(env, db, op);
      && again.content == op.content && again.credentials == op.credentials && again.src.settings == op.src.settings
      && again.src.protocol == op.src.protocol && again.src.url == op.src.url
    ensures op.StageOp? ==> Reread(env, db, op).n == op.n
  {
    var v := db.sources[op.id];
    assert v.(nextSync := 0, nextProbe := 0) == op.src.(nextSync := 0, nextProbe := 0);
    assert v.settings == op.src.settings && v.protocol == op.src.protocol && v.url == op.src.url
           && v.active == op.src.active
        && v.staged == op.src.staged && v.etag == op.src.etag && v.lastModified == op.src.lastModified;
  }

  lemma CommitAsReread(env: Env, db: DB, op: Op, revId: Id, now: int, stamp: Stamp)
    requires ApprovalOk(db) && op.id in db.sources && StillCurrent(db, op) && Complete(env, op)
    requires op.StageOp? ==> env.parse(op.hash, op.src.protocol, "") == Some(op.n)
    requires db.sources[op.id].updatedAt == op.src.updatedAt
    ensures Complete(env, Reread(env, db, op))
    ensures CommitOp(env, db, op, revId, now, stamp) == CommitOp(env, db, Reread(env, db, op), revId, now, stamp)
  {
    SameReads(env, db, op);
    var v := db.sources[op.id];
    assert v.(nextSync := 0, nextProbe := 0) == op.src.(nextSync := 0, nextProbe := 0);
    assert v.active == op.src.active && v.settings == op.src.settings;
  }

  /** In any interleaving, a commit whose source still carries the stamp it read makes exactly the transition it would
      have made had its whole read phase run on the commit-time database; every other commit fails and changes
      nothing. */
  lemma OptimisticCommitsAreAtomic(env: Env, ws: seq<World>, es: seq<Event>, j: nat)
    requires IsRun(env, ws, es) && Initial(ws[0]) && j < |es| && es[j].Commit?
    ensures var db, op := ws[j].db, ws[j].ops[es[j].o];
            if op.id in db.sources && db.sources[op.id].updatedAt == op.src.updatedAt then
              Complete(env, Reread(env, db, op))
              && Tx(env, ws[j], es[j]) == CommitOp(env, db, Reread(env, db, op), es[j].revId, es[j].now, es[j].stamp)
              && Tx(env, ws[j], es[j]) != Err(Conflict)
            else Tx(env, ws[j], es[j]) == Err(if op.id in db.sources then Conflict else NotFound) && ws[j + 1].db == db
  {
    InvInRun(env, ws, es, j);
    var db, op := ws[j].db, ws[j].ops[es[j].o];
    assert OpOk(env, db, ws[j].stamps, op);
    if op.id in db.sources && db.sources[op.id].updatedAt == op.src.updatedAt {
      CommitAsReread(env, db, op, es[j].revId, es[j].now, es[j].stamp);
      var v := db.sources[op.id];
      assert v.(nextSync := 0, nextProbe := 0) == op.src.(nextSync := 0, nextProbe := 0);
      assert v.active == op.src.active && v.settings == op.src.settings;
    } else if op.SyncOp? {
      var plan := PlanSync(env, op.id, op.src, op.conditional.value, op.sampling.value);
    }
  }

  /** The row's times are those of the scheduler, but for the one that the committing operation itself sets. */
  predicate TimesKept(v: Source, after: Source, now: int, fetched: bool, probed: bool) {
    && (after.nextSync == v.nextSync || (fetched && after.nextSync == now + v.settings.intervalMinutes * MINUTE))
    && (after.nextProbe == v.nextProbe || (probed && after.health == Avoid && after.nextProbe == now + 30 * MINUTE))
  }

  lemma SyncTimes(db: DB, env: Env, id: Id, read: Stamp, f: Fetched, revId: Id, now: int, stamp: Stamp)
    requires CommitSync(db, env, id, read, f, revId, now, stamp).Ok?
    ensures TimesKept(db.sources[id], CommitSync(db, env, id, read, f, revId, now, stamp).value.sources[id], now, true,
                      false)
  {
    SyncCases(db, env, id, read, f, revId, now, stamp);
  }

  lemma ProbeTimes(db: DB, id: Id, read: Source, p: Probe, now: int, stamp: Stamp)
    requires CommitProbe(db, id, read, p, now, stamp).Ok?
    ensures TimesKept(db.sources[id], CommitProbe(db, id, read, p, now, stamp).value.sources[id], now, false, true)
  {
  }

  lemma StageTimes(db: DB, id: Id, read: Stamp, hash: string, n: Normalized, revId: Id, stamp: Stamp, now: int)
    requires CommitStage(db, id, read, hash, n, revId, stamp).Ok?
    ensures TimesKept(db.sources[id], CommitStage(db, id, read, hash, n, revId, stamp).value.sources[id], now, false,
                      false)
  {
  }

  lemma CommitTimes(env: Env, db: DB, op: Op, revId: Id, now: int, stamp: Stamp)
    requires Complete(env, op) && CommitOp(env, db, op, revId, now, stamp).Ok?
    ensures op.id in db.sources && op.id in CommitOp(env, db, op, revId, now, stamp).value.sources
    ensures TimesKept(db.sources[op.id], CommitOp(env, db, op, revId, now, stamp).value.sources[op.id], now,
                      CommitsFetch(env, op), !op.StageOp?)
  {
    match op
    case SyncOp(id, src, c, s) =>
      var plan := PlanSync(env, id, src, c.value, s.value);
      if plan.Ready? {
        SyncTimes(db, env, id, src.updatedAt, plan.f, revId, now, stamp);
      } else {
        ProbeTimes(db, id, src, Probe(false, false), now, stamp);
      }
    case ProbeOp(id, src, content, credentials) =>
      ProbeTimes(db, id, src, env.sample(id, src.protocol, src.url, src.settings, credentials.value, content.value),
                 now, stamp);
    case StageOp(id, src, hash, n) => StageTimes(db, id, src.updatedAt, hash, n, revId, stamp, now);
  }

  /** The scheduler's unstamped writes survive every commit, except the time the committing operation itself sets. */
  lemma SchedulerWritesSurvive(env: Env, ws: seq<World>, es: seq<Event>, j: nat, id: Id)
    requires IsRun(env, ws, es) && Initial(ws[0]) && j < |es| && es[j].Commit? && id in ws[j].db.sources
    ensures id in ws[j + 1].db.sources
    ensures var op := ws[j].ops[es[j].o];
            TimesKept(ws[j].db.sources[id], ws[j + 1].db.sources[id], es[j].now,
                      op.id == id && CommitsFetch(env, op), op.id == id && !op.StageOp?)
  {
    var e, w := es[j], ws[j];
    var op := w.ops[e.o];
    if Tx(env, w, e).Ok? {
      CommitHasShape(env, w.db, op, e.revId, e.now, e.stamp);
      CommitTimes(env, w.db, op, e.revId, e.now, e.stamp);
    }
  }

  // ---- automatic updates stay bounded ----

  predicate Reachable(env: Env, n: Normalized) { Hosts(env.host, n.items) != {} }

  /** What the parser promises of playlists: a hint is obeyed, and every kept channel has a host (SafeURL). */
  ghost predicate PlaylistsHaveHosts(env: Env) {
    && "m3u" !in env.connectors
    && forall hash, hint, url :: env.parse(hash, hint, url).Some? ==>
         && (hint == "m3u" ==> env.parse(hash, hint, url).value.protocol == "m3u")
         && (env.parse(hash, hint, url).value.protocol == "m3u" ==> Reachable(env, env.parse(hash, hint, url).value))
  }

  predicate IsPlaylist(db: DB, id: Id) { id in db.sources && db.sources[id].protocol == "m3u" }

  /** Every revision of a playlist source that is or may become active has hosts. */
  ghost predicate PlaylistsOk(env: Env, db: DB) {
    forall r | r in db.revisions && IsPlaylist(db, db.revisions[r].sourceId) && db.revisions[r].status != Invalid ::
      Reachable(env, db.revisions[r].normalized)
  }

  predicate Touches(e: Event, id: Id) {
    match e
    case Act(i, a, _, _) => i == id && IsApproval(a)
    case Admit(i, _, _, _, _, _, _) => i == id
    case Delete(i) => i == id
    case _ => false
  }

  function ActiveHosts(env: Env, db: DB, id: Id): set<string>
    requires id in db.sources
  {
    Hosts(env.host, PriorContent(db, db.sources[id]).items)
  }

  function ActiveKeys(db: DB, id: Id): set<string>
    requires id in db.sources
  {
    Keyed(PriorContent(db, db.sources[id]).items).Keys
  }

  /** A usable revision after an event was there before with the same content, or is new and
      was parsed for its source. */
  predicate Origin(env: Env, was: DB, after: DB, r: Id)
    requires r in after.revisions
  {
    var now := after.revisions[r];
    || (r in was.revisions && was.revisions[r].sourceId == now.sourceId && was.revisions[r].normalized == now.normalized
        && was.revisions[r].hash == now.hash && was.revisions[r].status != Invalid)
    || now.sourceId !in after.sources
    || (var v := after.sources[now.sourceId];
        env.parse(now.hash, v.protocol, v.url) == Some(now.normalized))
  }

  lemma FetchParsed(env: Env, op: Op)
    requires CommitsFetch(env, op) && FetchOf(env, op).hash != ""
    ensures env.parse(FetchOf(env, op).hash, op.src.protocol, op.src.url) == Some(FetchOf(env, op).parsed)
  {
  }

  lemma CommitOrigin(env: Env, db: DB, op: Op, revId: Id, now: int, stamp: Stamp, r: Id)
    requires Complete(env, op) && revId !in db.revisions
    requires op.StageOp? ==> op.src.url == "" && env.parse(op.hash, op.src.protocol, "") == Some(op.n)
    requires op.id in db.sources && db.sources[op.id].updatedAt == op.src.updatedAt ==> StillCurrent(db, op)
    requires CommitOp(env, db, op, revId, now, stamp).Ok?
    requires r in CommitOp(env, db, op, revId, now, stamp).value.revisions
             && CommitOp(env, db, op, revId, now, stamp).value.revisions[r].status != Invalid
    ensures Origin(env, db, CommitOp(env, db, op, revId, now, stamp).value, r)
  {
    var after := CommitOp(env, db, op, revId, now, stamp).value;
    var v := db.sources[op.id];
    CommitHasShape(env, db, op, revId, now, stamp);
    if r !in db.revisions {
      assert v.(nextSync := 0, nextProbe := 0) == op.src.(nextSync := 0, nextProbe := 0);
      assert v.protocol == op.src.protocol && v.url == op.src.url;
      if op.SyncOp? {
        assert CommitsFetch(env, op);
        FetchParsed(env, op);
      }
    }
  }

  lemma ActOrigin(db: DB, id: Id, a: Action, revision: Id, stamp: Stamp, r: Id)
    requires ApprovalOk(db) && Acted(db, id, a, revision, stamp).Ok?
    requires r in Acted(db, id, a, revision, stamp).value.revisions
             && Acted(db, id, a, revision, stamp).value.revisions[r].status != Invalid
    ensures var after := Acted(db, id, a, revision, stamp).value;
            r in db.revisions && db.revisions[r].sourceId == after.revisions[r].sourceId
            && db.revisions[r].normalized == after.revisions[r].normalized
            && db.revisions[r].hash == after.revisions[r].hash
            && db.revisions[r].status != Invalid
  {
    assert RowApproved(db, id, db.sources[id]);
  }

  lemma CommitEndpoint(env: Env, db: DB, op: Op, revId: Id, now: int, stamp: Stamp, id: Id)
    requires Complete(env, op) && CommitOp(env, db, op, revId, now, stamp).Ok? && id in db.sources
    ensures SameEndpoint(db, CommitOp(env, db, op, revId, now, stamp).value, id)
  {
    CommitHasShape(env, db, op, revId, now, stamp);
  }

  lemma EndpointKept(env: Env, w: World, e: Event, id: Id)
    requires Enabled(env, w, e) && id in w.db.sources && id in Apply(env, w, e).db.sources
    ensures SameEndpoint(w.db, Apply(env, w, e).db, id)
  {
    if !e.Act? && !e.Commit? {
      QuietRow(env, w, e, id);
    } else if Tx(env, w, e).Ok? {
      match e
      case Act(o, a, revision, stamp) => ActHasShape(w.db, o, a, revision, stamp);
      case Commit(_, revId, now, stamp) => CommitEndpoint(env, w.db, w.ops[e.o], revId, now, stamp, id);
    }
  }

  lemma QuietOrigin(env: Env, w: World, e: Event, r: Id)
    requires Inv(env, w) && Enabled(env, w, e) && !e.Admit?
    requires r in Apply(env, w, e).db.revisions && Apply(env, w, e).db.revisions[r].status != Invalid
    ensures Origin(env, w.db, Apply(env, w, e).db, r)
  {
    if Tx(env, w, e).Ok? {
      if e.Commit? {
        assert OpOk(env, w.db, w.stamps, w.ops[e.o]);
        CommitOrigin(env, w.db, w.ops[e.o], e.revId, e.now, e.stamp, r);
      } else if e.Act? {
        ActOrigin(w.db, e.id, e.a, e.revision, e.stamp, r);
      }
    }
  }

  lemma SourcesAppear(env: Env, w: World, e: Event, id: Id)
    requires Enabled(env, w, e) && id in Apply(env, w, e).db.sources && id !in w.db.sources
    ensures e.Admit? && e.id == id
  {
    if e.Act? && Tx(env, w, e).Ok? {
      ActHasShape(w.db, e.id, e.a, e.revision, e.stamp);
    } else if e.Commit? && Tx(env, w, e).Ok? {
      CommitHasShape(env, w.db, w.ops[e.o], e.revId, e.now, e.stamp);
    }
  }

  lemma PlaylistsKept(env: Env, w: World, e: Event)
    requires PlaylistsHaveHosts(env) && Inv(env, w) && Enabled(env, w, e) && PlaylistsOk(env, w.db)
             && RevisionsOwned(w.db)
    ensures PlaylistsOk(env, Apply(env, w, e).db)
  {
    var after := Apply(env, w, e).db;
    forall r | r in after.revisions && IsPlaylist(after, after.revisions[r].sourceId)
      && after.revisions[r].status != Invalid
      ensures Reachable(env, after.revisions[r].normalized)
    {
      if !e.Admit? {
        var id := after.revisions[r].sourceId;
        QuietOrigin(env, w, e, r);
        if id !in w.db.sources { SourcesAppear(env, w, e, id); }
        EndpointKept(env, w, e, id);
      }
    }
  }

  /** ON DELETE CASCADE and the foreign key: every revision has its source. */
  ghost predicate RevisionsOwned(db: DB) { forall r | r in db.revisions :: db.revisions[r].sourceId in db.sources }

  lemma RevisionsAppear(env: Env, w: World, e: Event, r: Id)
    requires ApprovalOk(w.db) && Enabled(env, w, e) && r in Apply(env, w, e).db.revisions && !e.Admit?
    ensures var after := Apply(env, w, e).db;
            if r in w.db.revisions then
              after.revisions[r].sourceId == w.db.revisions[r].sourceId
                && (e.Delete? && Tx(env, w, e).Ok? ==> w.db.revisions[r].sourceId != e.id)
            else after.revisions[r].sourceId in w.db.sources && !e.Delete?
  {
    if e.Act? && Tx(env, w, e).Ok? {
      ActHasShape(w.db, e.id, e.a, e.revision, e.stamp);
    } else if e.Commit? && Tx(env, w, e).Ok? {
      CommitHasShape(env, w.db, w.ops[e.o], e.revId, e.now, e.stamp);
    }
  }

  lemma SourcesStay(env: Env, w: World, e: Event, id: Id)
    requires Enabled(env, w, e) && id in w.db.sources && !(e.Delete? && e.id == id)
    ensures id in Apply(env, w, e).db.sources
  {
    if e.Act? && Tx(env, w, e).Ok? {
      ActHasShape(w.db, e.id, e.a, e.revision, e.stamp);
    } else if e.Commit? && Tx(env, w, e).Ok? {
      CommitHasShape(env, w.db, w.ops[e.o], e.revId, e.now, e.stamp);
    }
  }

  lemma OwnedKept(env: Env, w: World, e: Event)
    requires Inv(env, w) && Enabled(env, w, e) && RevisionsOwned(w.db)
    ensures RevisionsOwned(Apply(env, w, e).db)
  {
    var after := Apply(env, w, e).db;
    forall r | r in after.revisions ensures after.revisions[r].sourceId in after.sources {
      if !e.Admit? {
        RevisionsAppear(env, w, e, r);
        SourcesStay(env, w, e, after.revisions[r].sourceId);
      }
    }
  }

  lemma {:induction false} PlaylistsInRun(env: Env, ws: seq<World>, es: seq<Event>, i: nat)
    requires PlaylistsHaveHosts(env) && IsRun(env, ws, es) && Initial(ws[0]) && i < |ws|
    ensures PlaylistsOk(env, ws[i].db) && RevisionsOwned(ws[i].db)
  {
    if i > 0 {
      PlaylistsInRun(env, ws, es, i - 1);
      InvInRun(env, ws, es, i - 1);
      PlaylistsKept(env, ws[i - 1], es[i - 1]);
      OwnedKept(env, ws[i - 1], es[i - 1]);
    }
  }

  lemma GatedStep(env: Env, prior: Normalized, next: Normalized)
    requires Reachable(env, prior) && !DiffOf(env.host, prior.items, next.items).requiresReview
    ensures Hosts(env.host, next.items) <= Hosts(env.host, prior.items)
    ensures 5 * |Keyed(prior.items).Keys * Keyed(next.items).Keys| > 4 * |Keyed(prior.items).Keys|
  {
    UnreviewedIsClose(env.host, prior.items, next.items);
  }

  lemma IdleStep(env: Env, n: Normalized)
    requires Reachable(env, n)
    ensures 5 * |Keyed(n.items).Keys * Keyed(n.items).Keys| > 4 * |Keyed(n.items).Keys|
  {
    KeyedEmpty(n.items);
    assert Keyed(n.items).Keys * Keyed(n.items).Keys == Keyed(n.items).Keys;
  }

  /** The active revision of a playlist after a step, when an operator did not touch it: still there, or
      replaced through the gate. */
  lemma ActiveAfter(env: Env, w: World, e: Event, id: Id)
    requires Inv(env, w) && Enabled(env, w, e) && !Touches(e, id) && id in w.db.sources && w.db.sources[id].active != ""
    ensures var db, after := w.db, Apply(env, w, e).db;
            && id in after.sources && after.sources[id].active != ""
            && (PriorContent(after, after.sources[id]) == PriorContent(db, db.sources[id])
                || !DiffOf(env.host, PriorContent(db, db.sources[id]).items,
                           PriorContent(after, after.sources[id]).items).requiresReview)
  {
    SourcesStay(env, w, e, id);
    var db, after := w.db, Apply(env, w, e).db;
    var v := db.sources[id];
    assert RowApproved(db, id, v);
    if after.sources[id].active != v.active {
      ActiveStep(env, w, e, id);
    } else {
      ContentKept(env, w, e, v.active);
    }
  }

  /** One automatic update of a playlist adds no host and keeps strictly more than 80% of the item keys. */
  lemma AutomaticStep(env: Env, w: World, e: Event, id: Id)
    requires PlaylistsHaveHosts(env) && Inv(env, w) && PlaylistsOk(env, w.db) && Enabled(env, w, e) && !Touches(e, id)
    requires IsPlaylist(w.db, id) && w.db.sources[id].active != ""
    ensures var w' := Apply(env, w, e);
            && IsPlaylist(w'.db, id) && w'.db.sources[id].active != ""
            && ActiveHosts(env, w'.db, id) <= ActiveHosts(env, w.db, id)
            && 5 * |ActiveKeys(w.db, id) * ActiveKeys(w'.db, id)| > 4 * |ActiveKeys(w.db, id)|
  {
    ActiveAfter(env, w, e, id);
    EndpointKept(env, w, e, id);
    var prior := PriorContent(w.db, w.db.sources[id]);
    assert RowApproved(w.db, id, w.db.sources[id]);
    assert Reachable(env, prior);
    var after := Apply(env, w, e).db;
    if PriorContent(after, after.sources[id]) == prior {
      IdleStep(env, prior);
    } else {
      GatedStep(env, prior, PriorContent(after, after.sources[id]));
    }
  }

  /** Between two operator approvals the hosts of a playlist's active revision never leave those approved last. */
  lemma {:induction false} AutomaticUpdatesStayWithinApprovedHosts(env: Env, ws: seq<World>, es: seq<Event>, i: nat,
                                                                   j: nat, id: Id)
    requires PlaylistsHaveHosts(env) && IsRun(env, ws, es) && Initial(ws[0]) && i <= j < |ws|
    requires IsPlaylist(ws[i].db, id) && ws[i].db.sources[id].active != ""
    requires forall k | i <= k < j :: !Touches(es[k], id)
    ensures IsPlaylist(ws[j].db, id) && ws[j].db.sources[id].active != ""
    ensures ActiveHosts(env, ws[j].db, id) <= ActiveHosts(env, ws[i].db, id)
    decreases j
  {
    if i < j {
      AutomaticUpdatesStayWithinApprovedHosts(env, ws, es, i, j - 1, id);
      InvInRun(env, ws, es, j - 1);
      PlaylistsInRun(env, ws, es, j - 1);
      AutomaticStep(env, ws[j - 1], es[j - 1], id);
    }
  }

  // ---- rejected content does not come back as unparseable either ----

  /** What the parser promises of hints: what it recognises as a protocol, it also parses when told the protocol. */
  ghost predicate HintsAgree(env: Env) {
    forall hash, hint, url :: env.parse(hash, hint, url).Some? ==>
        env.parse(hash, env.parse(hash, hint, url).value.protocol, url).Some?
  }

  /** The content of a usable revision parses for its source. */
  predicate ParsesFor(env: Env, db: DB, r: Id)
    requires r in db.revisions
  {
    var id := db.revisions[r].sourceId;
    db.revisions[r].status != Invalid && id in db.sources && db.sources[id].protocol !in env.connectors ==>
      env.parse(db.revisions[r].hash, db.sources[id].protocol, db.sources[id].url).Some?
  }

  ghost predicate Parseable(env: Env, db: DB) { forall r | r in db.revisions :: ParsesFor(env, db, r) }

  lemma AdmittedParses(env: Env, w: World, e: Event, r: Id)
    requires HintsAgree(env) && Parseable(env, w.db) && RevisionsOwned(w.db) && Enabled(env, w, e) && e.Admit?
    requires r in Apply(env, w, e).db.revisions
    ensures ParsesFor(env, Apply(env, w, e).db, r)
  {
    if r in w.db.revisions {
      assert ParsesFor(env, w.db, r);
    } else if e.v.protocol !in env.connectors {
      var hint :| env.parse(e.hash, hint, e.v.url) == Some(e.n) && e.n.protocol == e.v.protocol;
      assert env.parse(e.hash, e.n.protocol, e.v.url).Some?;
    }
  }

  lemma LaterParses(env: Env, w: World, e: Event, r: Id)
    requires Parseable(env, w.db) && Inv(env, w) && Enabled(env, w, e) && !e.Admit?
    requires r in Apply(env, w, e).db.revisions
    ensures ParsesFor(env, Apply(env, w, e).db, r)
  {
    var after := Apply(env, w, e).db;
    var id := after.revisions[r].sourceId;
    if after.revisions[r].status != Invalid && id in after.sources {
      QuietOrigin(env, w, e, r);
      if id !in w.db.sources { SourcesAppear(env, w, e, id); }
      EndpointKept(env, w, e, id);
      if r in w.db.revisions {
        assert ParsesFor(env, w.db, r);
      }
    }
  }

  lemma {:induction false} ParseableInRun(env: Env, ws: seq<World>, es: seq<Event>, i: nat)
    requires HintsAgree(env) && IsRun(env, ws, es) && Initial(ws[0]) && i < |ws|
    ensures Parseable(env, ws[i].db) && RevisionsOwned(ws[i].db)
  {
    if i > 0 {
      var w, e := ws[i - 1], es[i - 1];
      ParseableInRun(env, ws, es, i - 1);
      InvInRun(env, ws, es, i - 1);
      OwnedKept(env, w, e);
      forall r | r in ws[i].db.revisions ensures ParsesFor(env, ws[i].db, r) {
        if e.Admit? {
          AdmittedParses(env, w, e, r);
        } else {
          LaterParses(env, w, e, r);
        }
      }
    }
  }

  /** A sync that records a body as invalid never records one that the source has rejected,
      staged or approved before. */
  lemma InvalidContentIsNew(env: Env, ws: seq<World>, es: seq<Event>, j: nat, q: Id)
    requires HintsAgree(env) && IsRun(env, ws, es) && Initial(ws[0]) && j < |es| && es[j].RecordInvalid?
    requires var db, op := ws[j].db, ws[j].ops[es[j].o];
             && op.id in db.sources && db.sources[op.id].protocol == op.src.protocol
             && db.sources[op.id].url == op.src.url
             && q in db.revisions && db.revisions[q].sourceId == op.id && db.revisions[q].status != Invalid
    ensures var after := ws[j + 1].db;
            es[j].revId in after.revisions && after.revisions[es[j].revId].hash != ws[j].db.revisions[q].hash
  {
    ParseableInRun(env, ws, es, j);
    assert ParsesFor(env, ws[j].db, q);
  }

  // ---- what every reachable database satisfies ----

  /** Enabled sources have an approved active revision of their own; a staged one is their own and awaits review;
      the health automaton's states carry exactly their scores and failure counts. */
  lemma EveryRunIsSafe(env: Env, ws: seq<World>, es: seq<Event>, i: nat, id: Id)
    requires IsRun(env, ws, es) && Initial(ws[0]) && i < |ws| && id in ws[i].db.sources
    ensures RowApproved(ws[i].db, id, ws[i].db.sources[id]) && HealthRow(ws[i].db.sources[id])
  {
    InvInRun(env, ws, es, i);
  }
}
