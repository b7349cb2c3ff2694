/** The per-type aggregate sets, kept in step with source visibility:
    internal/service/aggregate.go, service.go, steward.go. */
module Aggregates {
  import opened Common
  import opened Model
  import opened Members
  import opened Sources
  import opened Publisher
  import opened Membership
  import opened Text
  import R = SourceRuns

  function AggregateTypeFor(protocol: string, mediaTypes: seq<string>): string {
    var p := Lower(Trim(protocol));
    if "audio.music" in mediaTypes && p in {"rss", "atom", "json-feed", "opml", ""} then "music"
    else if p == "tvbox" then "tvbox"
    else if p in {"m3u", "xmltv", "dispatcharr"} then "iptv"
    else if p in {"legado-book", "so-novel", "relay-book", "opds1", "opds2", "legado-replace", "legado-hub"} then
      "novel"
    else if p == "mihon-repo" then "manga"
    else if p in {"legado-tts", "podcast"} then "audiobook"
    else if p in {"lx-music", "music-playlist"} then "music"
    else if p == "direct-link" then "other"
    else if p in {"rss", "atom", "json-feed", "opml", "legado-rss"} then "rss"
    else MediaBucket(p, mediaTypes)
  }

  /** The first media tag that names a bucket decides. */
  function MediaBucket(p: string, mediaTypes: seq<string>): string {
    if mediaTypes == [] then "other"
    else
      var m := mediaTypes[0];
      if m in {"video.live", "support.epg", "audio.radio"} then "iptv"
      else if m in {"text.novel", "text.ebook"} then "novel"
      else if m == "image.comic" then "manga"
      else if m in {"speech.tts", "audio.audiobook"} then "audiobook"
      else if m == "audio.music" then "music"
      else if m in {"text.article", "audio.podcast"} then "rss"
      else if m in {"video.movie", "video.series", "video.short"} && p == "" then "tvbox"
      else MediaBucket(p, mediaTypes[1..])
  }

  /** bucketByType: the stable set id of a type, the last bucket for an unknown one. */
  function SlugOf(t: string): Id {
    if t == "tvbox" then "aggregate-tvbox"
    else if t == "iptv" then "aggregate-iptv"
    else if t == "novel" then "aggregate-novel"
    else if t == "manga" then "aggregate-manga"
    else if t == "audiobook" then "aggregate-audiobook"
    else if t == "music" then "aggregate-music"
    else if t == "rss" then "aggregate-rss"
    else "aggregate-other"
  }

  function BucketOf(protocol: string, mediaTypes: seq<string>): Id { SlugOf(AggregateTypeFor(protocol, mediaTypes)) }

  const AGGREGATE := ['\U{805a}', '\U{5408}', '\U{b7}']

  /** aggregateBuckets: the type and the name of a bucket by its slug. */
  function BucketName(slug: Id): (string, string) {
    if slug == "aggregate-tvbox" then ("tvbox", "TVBox")
    else if slug == "aggregate-iptv" then ("iptv", "IPTV")
    else if slug == "aggregate-novel" then ("novel", ['\U{5c0f}', '\U{8bf4}'])
    else if slug == "aggregate-manga" then ("manga", ['\U{6f2b}', '\U{753b}'])
    else if slug == "aggregate-audiobook" then ("audiobook", ['\U{6709}', '\U{58f0}', '\U{4e66}'])
    else if slug == "aggregate-music" then ("music", ['\U{97f3}', '\U{4e50}'])
    else if slug == "aggregate-rss" then ("rss", "RSS")
    else ("other", ['\U{5176}', '\U{4ed6}'])
  }

  function TitleOf(slug: Id): string { AGGREGATE + BucketName(slug).1 }

  function AboutOf(slug: Id): string {
    "System aggregate by content type (" + BucketName(slug).0
      + "). Clients subscribe here; do not use for manual SourceSets."
  }

  /** The grouping that the service uses. */
  const AGGREGATION := Grouping(BucketOf, AGGREGATES + LEGACY, TitleOf, AboutOf)

  ghost predicate Sound(g: Grouping) { forall p, m :: g.bucket(p, m) in g.slugs }

  lemma AggregationIsSound()
    ensures Sound(AGGREGATION) && forall id :: IsAggregateSetID(id) <==> id in AGGREGATION.slugs
  {
    forall p, m ensures AGGREGATION.bucket(p, m) in AGGREGATION.slugs {
      assert SlugOf(AggregateTypeFor(p, m)) in AGGREGATES;
    }
  }

  // ---- the operations that keep the index, each run to its end ----

  datatype Op =
    | Import(id: Id, v: Source, revId: Id, hash: string, n: Normalized, h: Option<Headers>, stamp: Stamp, second: Stamp)
    | Act(id: Id, a: Action, revision: Id, stamp: Stamp)
    | Delete(id: Id, stamp: Stamp)
    | SoftDelete(id: Id, stamp: Stamp)
    | Undo(id: Id, stamp: Stamp)
    | SaveSet(id: Id, isNew: bool, d: Draft, safe: SafeUrl, stamp: Stamp)     // not on an aggregate id
    // syncs, probes, ticks, credentials, edits that keep the media types
    | Other(db: DB)

  function ActedSets(g: Grouping, st: Store, id: Id, a: Action, revision: Id, stamp: Stamp): Store {
    match Acted(st.db, id, a, revision, stamp)
    case Err(_) => st
    case Ok(db) =>
      st.(db := db,
          sets := if a == ApproveEnable || a == Enable then Upserted(g, st.sets, id, db.sources[id], stamp)
                  else if a == Action.Disable then Stripped(g, st.sets, id, stamp) else st.sets)
  }

  predicate AutoEnabled(v: Source) {
    v.catalogId == "" && v.staged != "" && (v.settings.trust == "reviewed" || v.settings.trust == "trusted")
  }

  predicate InSomeSet(g: Grouping, sets: Sets, id: Id, manualOnly: bool) {
    exists k | k in sets :: !(manualOnly && k in g.slugs) && HasMember(sets[k], id)
  }

  function Do(g: Grouping, st: Store, env: Env, op: Op): Store {
    match op
    case Import(id, v, revId, hash, n, h, stamp, second) =>
      (match Admitted(st.db, env, id, v, revId, hash, n, h)
       case Err(_) => st
       case Ok(db) =>
         var next := st.(db := db);
         if AutoEnabled(v) then ActedSets(g, next, id, ApproveEnable, v.staged, second) else next)
    case Act(id, a, revision, stamp) => ActedSets(g, st, id, a, revision, stamp)
    case Delete(id, stamp) =>
      var sets := Stripped(g, st.sets, id, stamp);
      if InSomeSet(g, sets, id, false) || Removed(st.db, id).Err? then st
      else st.(db := Removed(st.db, id).value, sets := sets)
    case SoftDelete(id, stamp) =>
      var sets := Stripped(g, st.sets, id, stamp);
      if InSomeSet(g, sets, id, true) || SoftDeleted(st.db, id, stamp).Err? then st
      else st.(db := SoftDeleted(st.db, id, stamp).value, sets := sets)
    case Undo(id, stamp) =>
      if Undeleted(st.db, id, stamp).Err? then st else st.(db := Undeleted(st.db, id, stamp).value)
    case SaveSet(id, isNew, d, safe, stamp) =>
      if Saved(st, safe, id, isNew, d, stamp).Err? then st else Saved(st, safe, id, isNew, d, stamp).value
    case Other(db) => st.(db := db)
  }

  predicate SameVisibility(g: Grouping, a: DB, b: DB) {
    && a.sources.Keys == b.sources.Keys
    && forall id | id in a.sources ::
         a.sources[id].enabled == b.sources[id].enabled && g.Of(a.sources[id]) == g.Of(b.sources[id])
  }

  /** Whatever is enabled has an active revision. */
  ghost predicate Approved(db: DB) {
    "" !in db.revisions && forall id | id in db.sources && db.sources[id].enabled :: db.sources[id].active != ""
  }

  ghost predicate Allowed(g: Grouping, st: Store, op: Op) {
    match op
    case Import(id, v, revId, _, _, _, stamp, _) =>
      id !in st.db.sources && revId !in st.db.revisions && revId != ""
        && v == NewSource(v.protocol, v.url, v.catalogId, v.settings, revId, stamp)
    case SaveSet(id, _, _, _, _) => id !in g.slugs
    case Other(db) => SameVisibility(g, st.db, db) && Approved(db)
    case _ => true
  }

  // ---- ReconcileAggregates ----

  function UpsertAll(g: Grouping, sets: Sets, db: DB, ids: seq<Id>, stamp: Stamp): Sets {
    if ids == [] then sets
    else
      var id := ids[|ids| - 1];
      var before := UpsertAll(g, sets, db, ids[..|ids| - 1], stamp);
      if id in db.sources then Upserted(g, before, id, db.sources[id], stamp) else before
  }

  predicate Visible(db: DB, id: Id) { id in db.sources && db.sources[id].enabled && db.sources[id].active != "" }

  /** ids lists all sources. */
  predicate ListsAll(db: DB, ids: seq<Id>) { forall id | id in db.sources :: id in ids }

  /** The eligible sources of a listing, in its order. */
  function Eligible(db: DB, ids: seq<Id>): seq<Id> {
    if ids == [] then []
    else
      var n := |ids| - 1;
      Eligible(db, ids[..n]) + if Visible(db, ids[n]) then [ids[n]] else []
  }

  function Rebuilt(g: Grouping, sets: Sets, db: DB, ids: seq<Id>, stamp: Stamp): Sets {
    UpsertAll(g, Cleared(g, sets, stamp), db, Eligible(db, ids), stamp)
  }

  // ---- the index and its rebuild ----

  function Times(ms: seq<Member>, id: Id): nat {
    if ms == [] then 0 else Times(ms[..|ms| - 1], id) + if ms[|ms| - 1].sourceId == id then 1 else 0
  }

  predicate Uniform(ms: seq<Member>) { forall m | m in ms :: m == AggregateMember(m.sourceId) }

  /** An enabled source belongs to the aggregate of its type and to no other. */
  function Expected(g: Grouping, db: DB, k: Id, id: Id): nat {
    if id in db.sources && db.sources[id].enabled && g.Of(db.sources[id]) == k then 1 else 0
  }

  ghost predicate BucketOk(g: Grouping, st: Store, k: Id) {
    Uniform(MembersOf(st.sets, k)) && forall id :: Times(MembersOf(st.sets, k), id) == Expected(g, st.db, k, id)
  }

  ghost predicate IndexOk(g: Grouping, st: Store) { forall k | k in g.slugs :: BucketOk(g, st, k) }

  lemma {:induction false} WithoutTimes(ms: seq<Member>, id: Id, o: Id)
    ensures Times(Without(ms, id), o) == if o == id then 0 else Times(ms, o)
    ensures forall m | m in Without(ms, id) :: m in ms && m.sourceId != id
  {
    if ms != [] {
      var n := |ms| - 1;
      WithoutTimes(ms[..n], id, o);
      assert ms == ms[..n] + [ms[n]];
      if ms[n].sourceId != id {
        assert Without(ms, id)[..|Without(ms, id)| - 1] == Without(ms[..n], id);
      }
    }
  }

  lemma {:induction false} NoTimes(ms: seq<Member>, id: Id)
    ensures Times(ms, id) == 0 <==> forall m | m in ms :: m.sourceId != id
  {
    if ms != [] {
      var n := |ms| - 1;
      NoTimes(ms[..n], id);
      assert ms == ms[..n] + [ms[n]];
    }
  }

  lemma StrippedTimes(g: Grouping, sets: Sets, id: Id, stamp: Stamp, k: Id, o: Id)
    requires k in g.slugs
    ensures Times(MembersOf(Stripped(g, sets, id, stamp), k), o) == if o == id then 0 else Times(MembersOf(sets, k), o)
    ensures forall m | m in MembersOf(Stripped(g, sets, id, stamp), k) :: m in MembersOf(sets, k)
  {
    if k in sets {
      WithoutTimes(sets[k].members, id, o);
      NoTimes(sets[k].members, id);
    }
  }

  lemma UpsertedTimes(g: Grouping, sets: Sets, id: Id, v: Source, stamp: Stamp, k: Id, o: Id)
    requires k in g.slugs
    ensures Times(MembersOf(Upserted(g, sets, id, v, stamp), k), o)
         == if o == id then (if k == g.Of(v) then 1 else 0) else Times(MembersOf(sets, k), o)
    ensures forall m | m in MembersOf(Upserted(g, sets, id, v, stamp), k) ::
              m in MembersOf(sets, k) || m == AggregateMember(id)
  {
    StrippedTimes(g, sets, id, stamp, k, o);
    var ms := MembersOf(Upserted(g, sets, id, v, stamp), k);
    if k == g.Of(v) {
      assert ms[..|ms| - 1] == MembersOf(Stripped(g, sets, id, stamp), k);
    }
  }

  ghost predicate AgreeBut(g: Grouping, a: DB, b: DB, id: Id) {
    forall k, o | o != id :: Expected(g, b, k, o) == Expected(g, a, k, o)
  }

  ghost predicate Unlisted(g: Grouping, db: DB, id: Id) { forall k :: Expected(g, db, k, id) == 0 }

  ghost predicate ListedAs(g: Grouping, db: DB, id: Id, v: Source) {
    forall k :: Expected(g, db, k, id) == if k == g.Of(v) then 1 else 0
  }

  /** Stripping and upserting bring the index to what a database that differs only in this
      source's visibility expects. */
  lemma IndexStripped(g: Grouping, st: Store, db: DB, id: Id, stamp: Stamp)
    requires IndexOk(g, st) && AgreeBut(g, st.db, db, id)
    requires Unlisted(g, db, id)
    ensures IndexOk(g, st.(db := db, sets := Stripped(g, st.sets, id, stamp)))
  {
    var after := st.(db := db, sets := Stripped(g, st.sets, id, stamp));
    forall k | k in g.slugs ensures BucketOk(g, after, k) {
      assert BucketOk(g, st, k);
      forall o ensures Times(MembersOf(after.sets, k), o) == Expected(g, db, k, o) {
        StrippedTimes(g, st.sets, id, stamp, k, o);
      }
      StrippedTimes(g, st.sets, id, stamp, k, id);
    }
  }

  lemma IndexUpserted(g: Grouping, st: Store, db: DB, id: Id, v: Source, stamp: Stamp)
    requires IndexOk(g, st) && AgreeBut(g, st.db, db, id)
    requires ListedAs(g, db, id, v)
    ensures IndexOk(g, st.(db := db, sets := Upserted(g, st.sets, id, v, stamp)))
  {
    var after := st.(db := db, sets := Upserted(g, st.sets, id, v, stamp));
    forall k | k in g.slugs ensures BucketOk(g, after, k) {
      assert BucketOk(g, st, k);
      forall o ensures Times(MembersOf(after.sets, k), o) == Expected(g, db, k, o) {
        UpsertedTimes(g, st.sets, id, v, stamp, k, o);
      }
      UpsertedTimes(g, st.sets, id, v, stamp, k, id);
    }
  }

  lemma ActedVisibility(db: DB, id: Id, a: Action, revision: Id, stamp: Stamp)
    requires Acted(db, id, a, revision, stamp).Ok?
    ensures var after := Acted(db, id, a, revision, stamp).value;
            && id in db.sources && after.sources.Keys == db.sources.Keys
            && (forall o | o in db.sources && o != id :: after.sources[o] == db.sources[o])
            && after.sources[id].protocol == db.sources[id].protocol
            && after.sources[id].settings.mediaTypes == db.sources[id].settings.mediaTypes
            && after.sources[id].enabled
               == if a == ApproveEnable || a == Enable then true else a != Action.Disable && db.sources[id].enabled
  {
  }

  lemma EnabledIndex(g: Grouping, st: Store, id: Id, a: Action, revision: Id, stamp: Stamp)
    requires IndexOk(g, st) && (a == ApproveEnable || a == Enable) && Acted(st.db, id, a, revision, stamp).Ok?
    ensures var db := Acted(st.db, id, a, revision, stamp).value;
            id in db.sources && IndexOk(g, st.(db := db, sets := Upserted(g, st.sets, id, db.sources[id], stamp)))
  {
    var db := Acted(st.db, id, a, revision, stamp).value;
    ActedVisibility(st.db, id, a, revision, stamp);
    IndexUpserted(g, st, db, id, db.sources[id], stamp);
  }

  lemma ActedIndex(g: Grouping, st: Store, id: Id, a: Action, revision: Id, stamp: Stamp)
    requires IndexOk(g, st)
    ensures IndexOk(g, ActedSets(g, st, id, a, revision, stamp))
  {
    if Acted(st.db, id, a, revision, stamp).Ok? {
      var db := Acted(st.db, id, a, revision, stamp).value;
      if a == ApproveEnable || a == Enable {
        EnabledIndex(g, st, id, a, revision, stamp);
      } else {
        ActedVisibility(st.db, id, a, revision, stamp);
        if a == Action.Disable {
          IndexStripped(g, st, db, id, stamp);
        } else {
          SameIndex(g, st, db);
        }
      }
    }
  }

  lemma SameIndex(g: Grouping, st: Store, db: DB)
    requires IndexOk(g, st) && SameVisibility(g, st.db, db)
    ensures IndexOk(g, st.(db := db))
  {
    forall k | k in g.slugs ensures BucketOk(g, st.(db := db), k) {
      assert BucketOk(g, st, k);
    }
  }

  lemma {:induction false} SavedElsewhere(st: Store, safe: SafeUrl, id: Id, isNew: bool, d: Draft, stamp: Stamp)
    requires Saved(st, safe, id, isNew, d, stamp).Ok?
    ensures var after := Saved(st, safe, id, isNew, d, stamp).value;
            after.db == st.db && forall k | k != id :: MembersOf(after.sets, k) == MembersOf(st.sets, k)
  {
  }

  /** Every operation run to its end leaves the incremental index exactly {(type of s, s) : s enabled}, each once. */
  lemma IndexKept(g: Grouping, st: Store, env: Env, op: Op)
    requires IndexOk(g, st) && Allowed(g, st, op)
    ensures IndexOk(g, Do(g, st, env, op))
  {
    match op
    case Import(id, v, revId, hash, n, h, stamp, second) =>
      var r := Admitted(st.db, env, id, v, revId, hash, n, h);
      if r.Ok? {
        assert IndexOk(g, st.(db := r.value));
        ActedIndex(g, st.(db := r.value), id, ApproveEnable, v.staged, second);
      }
    case Act(id, a, revision, stamp) => ActedIndex(g, st, id, a, revision, stamp);
    case Delete(id, stamp) => if Removed(st.db, id).Ok? { IndexStripped(g, st, Removed(st.db, id).value, id, stamp); }
    case SoftDelete(id, stamp) =>
      if SoftDeleted(st.db, id, stamp).Ok? {
        IndexStripped(g, st, SoftDeleted(st.db, id, stamp).value, id, stamp);
      }
    case Undo(id, stamp) =>
    case SaveSet(id, isNew, d, safe, stamp) =>
      if Saved(st, safe, id, isNew, d, stamp).Ok? { SavedElsewhere(st, safe, id, isNew, d, stamp); }
    case Other(db) => SameIndex(g, st, db);
  }

  /** The background work of the control plane never changes what is visible: ticks, credentials and every commit. */
  lemma BackgroundKeepsVisibility(g: Grouping, env: Env, w: R.World, e: R.Event)
    requires R.Enabled(env, w, e) && (e.Commit? || e.Tick? || e.Rekey? || e.RecordInvalid?) && R.Tx(env, w, e).Ok?
    ensures SameVisibility(g, w.db, R.Tx(env, w, e).value)
  {
    if e.Commit? {
      var op := w.ops[e.o];
      R.CommitHasShape(env, w.db, op, e.revId, e.now, e.stamp);
    }
  }

  lemma EditedVisibility(db: DB, env: Env, id: Id, ed: Edit, stamp: Stamp)
    requires Edited(db, env, id, ed, stamp).Ok?
    ensures var after := Edited(db, env, id, ed, stamp).value;
            && after.sources.Keys == db.sources.Keys && after.revisions == db.revisions && id in db.sources
            && (forall o | o in db.sources && o != id :: after.sources[o] == db.sources[o])
            && after.sources[id].protocol == db.sources[id].protocol
            && after.sources[id].enabled == db.sources[id].enabled
            && after.sources[id].active == db.sources[id].active
            && after.sources[id].settings == EditedSettings(db.sources[id].settings, ed)
  {
  }

  lemma SameBuckets(g: Grouping, was: DB, after: DB, id: Id)
    requires after.sources.Keys == was.sources.Keys && after.revisions == was.revisions && id in was.sources
    requires forall o | o in was.sources && o != id :: after.sources[o] == was.sources[o]
    requires var v, w := was.sources[id], after.sources[id];
             w.protocol == v.protocol && w.enabled == v.enabled && w.active == v.active
               && w.settings.mediaTypes == v.settings.mediaTypes
    ensures SameVisibility(g, was, after) && (Approved(was) ==> Approved(after))
  {
  }

  /** An edit that keeps the media types changes neither what is visible nor what is approved. */
  lemma EditKeepsVisibility(g: Grouping, db: DB, env: Env, id: Id, ed: Edit, stamp: Stamp)
    requires Edited(db, env, id, ed, stamp).Ok?
    requires ed.mediaTypes == [] || ed.mediaTypes == db.sources[id].settings.mediaTypes
    ensures SameVisibility(g, db, Edited(db, env, id, ed, stamp).value)
    ensures Approved(db) ==> Approved(Edited(db, env, id, ed, stamp).value)
  {
    EditedVisibility(db, env, id, ed, stamp);
    SameBuckets(g, db, Edited(db, env, id, ed, stamp).value, id);
  }

  lemma CommitKeepsApproved(env: Env, db: DB, op: R.Op, revId: Id, now: int, stamp: Stamp)
    requires R.Complete(env, op) && R.CommitOp(env, db, op, revId, now, stamp).Ok? && Approved(db) && revId != ""
    ensures Approved(R.CommitOp(env, db, op, revId, now, stamp).value)
  {
    R.CommitHasShape(env, db, op, revId, now, stamp);
    if R.CommitsFetch(env, op) {
      R.SyncRow(db, env, op.id, op.src.updatedAt, R.FetchOf(env, op), revId, now, stamp);
    } else {
      R.OtherCommitRow(env, db, op, revId, now, stamp);
    }
  }

  /** Nor does it leave anything enabled without an active revision. */
  lemma BackgroundKeepsApproved(env: Env, w: R.World, e: R.Event)
    requires R.Enabled(env, w, e) && (e.Commit? || e.Tick? || e.Rekey? || e.RecordInvalid?) && R.Tx(env, w, e).Ok?
    requires Approved(w.db)
    ensures Approved(R.Tx(env, w, e).value)
  {
    if e.Commit? {
      CommitKeepsApproved(env, w.db, w.ops[e.o], e.revId, e.now, e.stamp);
    }
  }

  function Run(g: Grouping, st: Store, env: Env, ops: seq<Op>): Store {
    if ops == [] then st else Do(g, Run(g, st, env, ops[..|ops| - 1]), env, ops[|ops| - 1])
  }

  lemma {:induction false} IndexInRun(g: Grouping, st: Store, env: Env, ops: seq<Op>)
    requires IndexOk(g, st) && forall i | 0 <= i < |ops| :: Allowed(g, Run(g, st, env, ops[..i]), ops[i])
    ensures IndexOk(g, Run(g, st, env, ops))
  {
    if ops != [] {
      var n := |ops| - 1;
      forall i | 0 <= i < n ensures Allowed(g, Run(g, st, env, ops[..n][..i]), ops[..n][i]) {
        assert ops[..n][..i] == ops[..i];
      }
      IndexInRun(g, st, env, ops[..n]);
      IndexKept(g, Run(g, st, env, ops[..n]), env, ops[n]);
    }
  }

  lemma {:induction false} UpsertAllTimes(g: Grouping, sets: Sets, db: DB, ids: seq<Id>, stamp: Stamp, k: Id, o: Id)
    requires k in g.slugs && MembersOf(sets, k) == [] && forall id | id in ids :: id in db.sources
    ensures Times(MembersOf(UpsertAll(g, sets, db, ids, stamp), k), o)
         == if o in ids && g.Of(db.sources[o]) == k then 1 else 0
    ensures Uniform(MembersOf(UpsertAll(g, sets, db, ids, stamp), k))
  {
    if ids != [] {
      var n := |ids| - 1;
      UpsertAllTimes(g, sets, db, ids[..n], stamp, k, o);
      UpsertedTimes(g, UpsertAll(g, sets, db, ids[..n], stamp), ids[n], db.sources[ids[n]], stamp, k, o);
      assert ids == ids[..n] + [ids[n]];
    }
  }

  lemma {:induction false} EligibleAreVisible(db: DB, ids: seq<Id>, id: Id)
    ensures id in Eligible(db, ids) <==> id in ids && Visible(db, id)
  {
    if ids != [] {
      var n := |ids| - 1;
      EligibleAreVisible(db, ids[..n], id);
      assert ids == ids[..n] + [ids[n]];
    }
  }

  /** From any membership whatever, the rebuild makes the index right, provided enabled sources are approved. */
  lemma RebuildIsRight(g: Grouping, st: Store, ids: seq<Id>, stamp: Stamp)
    requires ListsAll(st.db, ids) && Approved(st.db)
    ensures IndexOk(g, st.(sets := Rebuilt(g, st.sets, st.db, ids, stamp)))
  {
    var sets, eligible := Cleared(g, st.sets, stamp), Eligible(st.db, ids);
    var after := st.(sets := Rebuilt(g, st.sets, st.db, ids, stamp));
    forall id ensures id in eligible <==> Visible(st.db, id) {
      EligibleAreVisible(st.db, ids, id);
    }
    forall k | k in g.slugs ensures BucketOk(g, after, k) {
      forall o ensures Times(MembersOf(after.sets, k), o) == Expected(g, st.db, k, o) {
        UpsertAllTimes(g, sets, st.db, eligible, stamp, k, o);
      }
      UpsertAllTimes(g, sets, st.db, eligible, stamp, k, "");
    }
  }

  lemma {:induction false} UniformBag(ms: seq<Member>, m: Member)
    requires Uniform(ms)
    ensures multiset(ms)[m] == if m == AggregateMember(m.sourceId) then Times(ms, m.sourceId) else 0
  {
    if ms != [] {
      var n := |ms| - 1;
      UniformBag(ms[..n], m);
      assert ms == ms[..n] + [ms[n]];
      assert ms[n] == AggregateMember(ms[n].sourceId);
    }
  }

  lemma {:induction false} OnceIsDistinct(ms: seq<Member>)
    requires forall id :: Times(ms, id) <= 1
    ensures Distinct(ms)
  {
    if ms != [] {
      var n := |ms| - 1;
      forall id ensures Times(ms[..n], id) <= 1 {
        assert Times(ms, id) <= 1;
      }
      OnceIsDistinct(ms[..n]);
      assert Times(ms, ms[n].sourceId) <= 1;
      NoTimes(ms[..n], ms[n].sourceId);
      forall i | 0 <= i < n ensures ms[i].sourceId != ms[n].sourceId {
        assert ms[..n][i] in ms[..n];
      }
    }
  }

  /** The incremental index and the rebuild give every bucket the same sorted member list, so publications agree. */
  lemma RebuildAgrees(g: Grouping, a: Store, b: Store, k: Id)
    requires IndexOk(g, a) && IndexOk(g, b) && a.db == b.db && k in g.slugs
    ensures multiset(MembersOf(a.sets, k)) == multiset(MembersOf(b.sets, k))
    ensures Distinct(MembersOf(a.sets, k)) && Sorted(MembersOf(a.sets, k)) == Sorted(MembersOf(b.sets, k))
  {
    var x, y := MembersOf(a.sets, k), MembersOf(b.sets, k);
    forall m: Member ensures multiset(x)[m] == multiset(y)[m] {
      UniformBag(x, m);
      UniformBag(y, m);
    }
    OnceIsDistinct(x);
    OnceIsDistinct(y);
    SortedIsOrdered(x);
    SortedIsOrdered(y);
    OrderIsCanonical(Sorted(x), Sorted(y));
  }

  /** Every operation keeps enabled sources approved. */
  lemma ApprovedKept(g: Grouping, st: Store, env: Env, op: Op)
    requires Approved(st.db) && Allowed(g, st, op)
    ensures Approved(Do(g, st, env, op).db)
  {
    match op
    case Import(id, v, revId, hash, n, h, stamp, second) =>
      var r := Admitted(st.db, env, id, v, revId, hash, n, h);
      if r.Ok? { ActedApproved(r.value, id, ApproveEnable, v.staged, second); }
    case Act(id, a, revision, stamp) => ActedApproved(st.db, id, a, revision, stamp);
    case Delete(id, stamp) =>
    case SoftDelete(id, stamp) =>
    case Undo(id, stamp) =>
    case SaveSet(id, isNew, d, safe, stamp) =>
      if Saved(st, safe, id, isNew, d, stamp).Ok? { SavedElsewhere(st, safe, id, isNew, d, stamp); }
    case Other(db) =>
  }

  lemma ActedApproved(db: DB, id: Id, a: Action, revision: Id, stamp: Stamp)
    requires Approved(db)
    ensures Acted(db, id, a, revision, stamp).Ok? ==> Approved(Acted(db, id, a, revision, stamp).value)
  {
  }

  lemma {:induction false} ApprovedInRun(g: Grouping, st: Store, env: Env, ops: seq<Op>)
    requires Approved(st.db) && forall i | 0 <= i < |ops| :: Allowed(g, Run(g, st, env, ops[..i]), ops[i])
    ensures Approved(Run(g, st, env, ops).db)
  {
    if ops != [] {
      var n := |ops| - 1;
      forall i | 0 <= i < n ensures Allowed(g, Run(g, st, env, ops[..n][..i]), ops[..n][i]) {
        assert ops[..n][..i] == ops[..i];
      }
      ApprovedInRun(g, st, env, ops[..n]);
      ApprovedKept(g, Run(g, st, env, ops[..n]), env, ops[n]);
    }
  }

  lemma RebuildMatches(g: Grouping, now: Store, ids: seq<Id>, stamp: Stamp, k: Id)
    requires IndexOk(g, now) && k in g.slugs && ListsAll(now.db, ids) && Approved(now.db)
    ensures Sorted(MembersOf(now.sets, k)) == Sorted(MembersOf(Rebuilt(g, now.sets, now.db, ids, stamp), k))
  {
    RebuildIsRight(g, now, ids, stamp);
    RebuildAgrees(g, now, now.(sets := Rebuilt(g, now.sets, now.db, ids, stamp)), k);
  }

  /** Whatever the run, what ReconcileAggregates computes at its end gives every bucket the
      same member list to publish. */
  lemma RunMatchesRebuild(g: Grouping, st: Store, env: Env, ops: seq<Op>, ids: seq<Id>, stamp: Stamp, k: Id)
    requires IndexOk(g, st) && Approved(st.db) && k in g.slugs
    requires forall i | 0 <= i < |ops| :: Allowed(g, Run(g, st, env, ops[..i]), ops[i])
    requires ListsAll(Run(g, st, env, ops).db, ids)
    ensures var now := Run(g, st, env, ops);
            Sorted(MembersOf(now.sets, k)) == Sorted(MembersOf(Rebuilt(g, now.sets, now.db, ids, stamp), k))
  {
    IndexInRun(g, st, env, ops);
    ApprovedInRun(g, st, env, ops);
    RebuildMatches(g, Run(g, st, env, ops), ids, stamp, k);
  }

  // ---- what the service's own grouping and its operations mean ----

  /** Which aggregate a source belongs to by its protocol; a feed of music belongs to the music. */
  lemma ListBuckets(protocol: string, mediaTypes: seq<string>)
    ensures var p, k := Lower(Trim(protocol)), BucketOf(protocol, mediaTypes);
            && (p == "tvbox" ==> k == "aggregate-tvbox")
            && (p == "m3u" || p == "xmltv" || p == "dispatcharr" ==> k == "aggregate-iptv")
  {
  }

  lemma BookBuckets(protocol: string, mediaTypes: seq<string>)
    ensures var p, k := Lower(Trim(protocol)), BucketOf(protocol, mediaTypes);
            && (p == "legado-book" || p == "so-novel" || p == "relay-book" ==> k == "aggregate-novel")
            && (p == "mihon-repo" ==> k == "aggregate-manga")
  {
  }

  lemma SoundBuckets(protocol: string, mediaTypes: seq<string>)
    ensures var p, k := Lower(Trim(protocol)), BucketOf(protocol, mediaTypes);
            && (p == "legado-tts" || p == "podcast" ==> k == "aggregate-audiobook")
            && (p == "lx-music" || p == "music-playlist" ==> k == "aggregate-music")
  {
  }

  lemma FeedBuckets(protocol: string, mediaTypes: seq<string>)
    requires var p := Lower(Trim(protocol)); p == "rss" || p == "atom" || p == "json-feed" || p == "opml"
    ensures BucketOf(protocol, mediaTypes)
         == if "audio.music" in mediaTypes then "aggregate-music" else "aggregate-rss"
  {
  }

  lemma TrustedImportJoins(g: Grouping, st: Store, env: Env, op: Op)
    requires op.Import? && Allowed(g, st, op) && op.v.catalogId == "" && env.accepts(op.v) && AutoEnabled(op.v)
    ensures var after := Do(g, st, env, op);
            && op.id in after.db.sources && after.db.sources[op.id].enabled
            && after.db.sources[op.id].active == op.revId
            && g.Of(op.v) in after.sets && HasMember(after.sets[g.Of(op.v)], op.id)
  {
    var db := Admitted(st.db, env, op.id, op.v, op.revId, op.hash, op.n, op.h).value;
    assert ApprovalError(db, op.id, ApproveEnable, op.v.staged) == None;
    var acted := Acted(db, op.id, ApproveEnable, op.v.staged, op.second).value;
    var sets := Upserted(g, st.sets, op.id, acted.sources[op.id], op.second);
    var ms := sets[g.Of(op.v)].members;
    assert ms[|ms| - 1].sourceId == op.id;
  }

  /** An import that nobody has to review is visible at once, as a member of its aggregate; any other stays disabled and
      touches no set. */
  lemma ImportMeansSets(g: Grouping, st: Store, env: Env, op: Op)
    requires op.Import? && Allowed(g, st, op) && (op.v.catalogId == "" ==> env.accepts(op.v))
    ensures var after, s := Do(g, st, env, op), op.v.settings;
            && op.id in after.db.sources
            && (op.v.catalogId == "" && (s.trust == "reviewed" || s.trust == "trusted") ==>
                  && after.db.sources[op.id].enabled && after.db.sources[op.id].active == op.revId
                  && g.Of(op.v) in after.sets && HasMember(after.sets[g.Of(op.v)], op.id))
            && (op.v.catalogId != "" || (s.trust != "reviewed" && s.trust != "trusted") ==>
                  after.sets == st.sets && !after.db.sources[op.id].enabled)
  {
    if AutoEnabled(op.v) {
      TrustedImportJoins(g, st, env, op);
    }
  }

  /** A source is deleted only when no set that people made holds it, and then no aggregate does. */
  lemma DeleteMeansSets(g: Grouping, st: Store, env: Env, op: Op)
    requires op.Delete? && op.id in st.db.sources
    ensures var after := Do(g, st, env, op);
            && ((exists k | k in st.sets && k !in g.slugs :: HasMember(st.sets[k], op.id)) ==> after == st)
            && (!(exists k | k in st.sets && k !in g.slugs :: HasMember(st.sets[k], op.id)) ==>
                  && op.id !in after.db.sources && after.sets.Keys == st.sets.Keys
                  && forall k | k in after.sets :: !HasMember(after.sets[k], op.id))
  {
    var sets := Stripped(g, st.sets, op.id, op.stamp);
    forall k | k in sets ensures HasMember(sets[k], op.id) <==> k !in g.slugs && HasMember(st.sets[k], op.id) {
      WithoutIs(st.sets[k].members, op.id);
    }
  }

  /** A source is archived under the same condition: it stays, disabled, and leaves the aggregates. */
  lemma ArchiveMeansSets(g: Grouping, st: Store, env: Env, op: Op)
    requires op.SoftDelete? && op.id in st.db.sources
    ensures var after := Do(g, st, env, op);
            && ((exists k | k in st.sets && k !in g.slugs :: HasMember(st.sets[k], op.id)) ==> after == st)
            && (!(exists k | k in st.sets && k !in g.slugs :: HasMember(st.sets[k], op.id)) ==>
                  && op.id in after.db.sources && !after.db.sources[op.id].enabled && op.id in after.db.deleted
                  && after.sets.Keys == st.sets.Keys
                  && forall k | k in after.sets :: !HasMember(after.sets[k], op.id))
  {
    var sets := Stripped(g, st.sets, op.id, op.stamp);
    forall k | k in sets ensures HasMember(sets[k], op.id) <==> k !in g.slugs && HasMember(st.sets[k], op.id) {
      WithoutIs(st.sets[k].members, op.id);
    }
  }

  // ---- the membership transactions as they run ----

  class AggregateSets {
    var sets: Sets

    static method Remove(ms: seq<Member>, id: Id) returns (next: seq<Member>, changed: bool)
      ensures next == Without(ms, id) && (changed <==> exists m | m in ms :: m.sourceId == id)
    {
      next, changed := [], false;
      for i := 0 to |ms|
        invariant next == Without(ms[..i], id) && (changed <==> exists m | m in ms[..i] :: m.sourceId == id)
      {
        assert ms[..i + 1] == ms[..i] + [ms[i]] && ms[..i + 1][..i] == ms[..i];
        if ms[i].sourceId == id {
          assert ms[i] in ms[..i + 1];
          changed := true;
        } else {
          next := next + [ms[i]];
        }
      }
      assert ms[..|ms|] == ms;
    }

    method Strip(g: Grouping, id: Id, stamp: Stamp)
      modifies this
      ensures sets == Stripped(g, old(sets), id, stamp)
    {
      ghost var was := sets;
      var rest := sets.Keys;
      while rest != {}
        invariant rest <= was.Keys && sets.Keys == was.Keys
        invariant forall k | k in was :: sets[k] == if k in rest then was[k] else Stripped(g, was, id, stamp)[k]
        decreases rest
      {
        var k :| k in rest;
        rest := rest - {k};
        if k in g.slugs {
          var next, changed := Remove(sets[k].members, id);
          if changed {
            sets := sets[k := sets[k].(members := next, updatedAt := stamp, signature := Unsigned)];
          }
        }
      }
    }

    method Upsert(g: Grouping, id: Id, v: Source, stamp: Stamp)
      modifies this
      ensures sets == Upserted(g, old(sets), id, v, stamp)
    {
      Strip(g, id, stamp);
      var slug := g.Of(v);
      if slug !in sets {
        sets := sets[slug := NewAggregate(g, slug, stamp)];
      }
      var s := sets[slug];
      s := s.(members := s.members + [AggregateMember(id)], updatedAt := stamp, signature := Unsigned);
      sets := sets[slug := s];
    }

    method Clear(g: Grouping, stamp: Stamp)
      modifies this
      ensures sets == Cleared(g, old(sets), stamp)
    {
      ghost var was := sets;
      var rest := sets.Keys;
      while rest != {}
        invariant rest <= was.Keys && sets.Keys == was.Keys
        invariant forall k | k in was :: sets[k] == if k in rest then was[k] else Cleared(g, was, stamp)[k]
        decreases rest
      {
        var k :| k in rest;
        rest := rest - {k};
        if k in g.slugs && |sets[k].members| != 0 {
          sets := sets[k := sets[k].(members := [], updatedAt := stamp, signature := Unsigned)];
        }
      }
    }

    /** ReconcileAggregates over a listing of all sources. */
    method Reconcile(g: Grouping, db: DB, ids: seq<Id>, stamp: Stamp)
      modifies this
      ensures sets == Rebuilt(g, old(sets), db, ids, stamp)
    {
      var eligible: seq<Id> := [];
      for i := 0 to |ids|
        invariant eligible == Eligible(db, ids[..i])
      {
        assert ids[..i + 1][..i] == ids[..i];
        if ids[i] in db.sources && db.sources[ids[i]].enabled && db.sources[ids[i]].active != "" {
          eligible := eligible + [ids[i]];
        }
      }
      assert ids[..|ids|] == ids;
      Clear(g, stamp);
      for i := 0 to |eligible|
        invariant sets == UpsertAll(g, Cleared(g, old(sets), stamp), db, eligible[..i], stamp)
      {
        assert eligible[..i + 1][..i] == eligible[..i];
        if eligible[i] in db.sources {
          Upsert(g, eligible[i], db.sources[eligible[i]], stamp);
        }
      }
      assert eligible[..|eligible|] == eligible;
    }
  }
}
