/** Prepare and Import of internal/transfer/manager.go: merging an archive into the database and the seed directory. */
module MergeImport {
  import opened Common
  import opened Merging

  datatype Key = Key(table: string, id: string)

  /** A record, a secret under the key of this instance, or a row of the job table. */
  datatype Data =
    | Plain(text: string)
    | Secret(owner: string, ciphertext: string, updatedAt: string)
    | Job(status: string, error: string, leaseUntil: Option<string>, leaseToken: Option<string>, createdAt: string,
          finishedAt: Option<string>, rest: string)

  type Rows = map<Key, Data>

  datatype Seeds = Missing | Dir(files: map<string, string>) | NotDir

  /** A prepared archive: its rows in table order with the jobs last, its seed files, the hashes of its snapshots. */
  datatype Archive = Archive(rows: seq<Row<Key, Data>>, seeds: map<string, string>, snapshots: set<string>,
                             keyRequired: bool)

  datatype Failure = KeyRequired | Busy | Refused(why: Refusal) | SeedsNotDir | DiskFailed | CommitFailed

  /** Decryption with the owner as context, and the constraints of the database on an insert. */
  datatype Env = Env(open: (string, string) -> Option<string>, accepts: (Rows, Key, Data) -> bool)

  datatype Faults = Faults(stage: bool, snapshot: bool, backup: bool, swap: bool, audit: bool, commit: bool)

  const NO_FAULTS := Faults(false, false, false, false, false, false)

  // ---- jobs of another instance ----

  predicate Active(d: Data) { d.Job? && (d.status == "queued" || d.status == "running") }

  /** A job that was not finished comes over as failed. */
  function Rewritten(d: Data): Data {
    if !Active(d) then d
    else d.(status := "failed", error := "interrupted by data migration; retry explicitly", leaseUntil := None,
            leaseToken := None, finishedAt := Some(d.createdAt))
  }

  function AllRewritten(rows: seq<Row<Key, Data>>): (r: seq<Row<Key, Data>>)
    ensures |r| == |rows|
  {
    seq(|rows|, i requires 0 <= i < |rows| => Row(rows[i].key, Rewritten(rows[i].data)))
  }

  predicate Quiet(rows: Rows) { forall k | k in rows :: !Active(rows[k]) }

  /** No prepared job is active any more; nothing else of the archive changes. */
  lemma RewritingEndsJobs(rows: seq<Row<Key, Data>>, i: nat)
    requires i < |rows|
    ensures var d, e := rows[i].data, AllRewritten(rows)[i].data;
            && AllRewritten(rows)[i].key == rows[i].key && !Active(e) && (!Active(d) ==> e == d)
            && (Active(d) ==> e.Job? && e.status == "failed" && e.rest == d.rest && e.createdAt == d.createdAt
                              && e.leaseUntil == None && e.leaseToken == None && e.finishedAt == Some(d.createdAt))
  {
  }

  predicate IdChar(c: char) {
    'A' <= c <= 'Z' || 'a' <= c <= 'z' || '0' <= c <= '9' || c == '_' || c == '.' || c == ':' || c == '-'
  }

  /** recordID: ^[A-Za-z0-9_.:-]{1,200}$ */
  predicate RecordId(id: string) { 1 <= |id| <= 200 && forall i | 0 <= i < |id| :: IdChar(id[i]) }

  predicate KnownJob(job: Row<Key, Data>) {
    RecordId(job.key.id) && job.data.Job? && job.data.status in ["queued", "running", "succeeded", "failed"]
  }

  function Interrupted(rows: seq<Row<Key, Data>>): nat {
    if rows == [] then 0 else Interrupted(rows[..|rows| - 1]) + if Active(rows[|rows| - 1].data) then 1 else 0
  }

  predicate AllKnown(jobs: seq<Row<Key, Data>>) { forall i | 0 <= i < |jobs| :: KnownJob(jobs[i]) }

  function KeysOf(jobs: seq<Row<Key, Data>>): set<Key> { set job | job in jobs :: job.key }

  ghost predicate JobsRead(jobs: seq<Row<Key, Data>>, out: seq<Row<Key, Data>>, seen: set<Key>, interrupted: nat) {
    && out == AllRewritten(jobs) && seen == KeysOf(jobs)
    && DistinctKeys(jobs) && AllKnown(jobs) && interrupted == Interrupted(jobs)
  }

  lemma DistinctNext(jobs: seq<Row<Key, Data>>, i: nat)
    requires i < |jobs| && DistinctKeys(jobs[..i])
    ensures jobs[i].key in KeysOf(jobs[..i]) ==> !DistinctKeys(jobs)
    ensures jobs[i].key !in KeysOf(jobs[..i]) ==> DistinctKeys(jobs[..i + 1])
    ensures KeysOf(jobs[..i + 1]) == KeysOf(jobs[..i]) + {jobs[i].key}
  {
    assert jobs[..i + 1] == jobs[..i] + [jobs[i]];
    if jobs[i].key in KeysOf(jobs[..i]) {
      var k :| 0 <= k < i && jobs[..i][k].key == jobs[i].key;
      assert jobs[k].key == jobs[i].key;
    } else {
      assert forall k | 0 <= k < i :: jobs[..i][k].key in KeysOf(jobs[..i]);
    }
  }

  lemma JobsReadNext(jobs: seq<Row<Key, Data>>, i: nat, out: seq<Row<Key, Data>>, seen: set<Key>, interrupted: nat)
    requires i < |jobs| && JobsRead(jobs[..i], out, seen, interrupted)
    ensures if jobs[i].key in seen || !KnownJob(jobs[i]) then !DistinctKeys(jobs) || !AllKnown(jobs)
            else JobsRead(jobs[..i + 1], out + [Row(jobs[i].key, Rewritten(jobs[i].data))], seen + {jobs[i].key},
                          interrupted + if Active(jobs[i].data) then 1 else 0)
  {
    var job, more := jobs[i], jobs[..i + 1];
    DistinctNext(jobs, i);
    assert more[..i] == jobs[..i] && more == jobs[..i] + [job];
    if job.key !in seen && KnownJob(job) {
      assert AllRewritten(more) == AllRewritten(jobs[..i]) + [Row(job.key, Rewritten(job.data))];
    }
  }

  /** Checks and rewrites the jobs of an archive, and counts those that were interrupted. */
  method PrepareJobs(jobs: seq<Row<Key, Data>>) returns (r: Option<seq<Row<Key, Data>>>, interrupted: nat)
    ensures r.Some? <==> DistinctKeys(jobs) && AllKnown(jobs)
    ensures r.Some? ==> r.value == AllRewritten(jobs) && interrupted == Interrupted(jobs) && DistinctKeys(r.value)
  {
    var out: seq<Row<Key, Data>> := [];
    var seen: set<Key> := {};
    interrupted := 0;
    for i := 0 to |jobs|
      invariant JobsRead(jobs[..i], out, seen, interrupted)
    {
      JobsReadNext(jobs, i, out, seen, interrupted);
      var job := jobs[i];
      if job.key in seen || !KnownJob(job) {
        return None, interrupted;
      }
      seen := seen + {job.key};
      if Active(job.data) {
        interrupted := interrupted + 1;
      }
      out := out + [Row(job.key, Rewritten(job.data))];
    }
    assert jobs[..|jobs|] == jobs;
    return Some(out), interrupted;
  }

  // ---- the merge ----

  /** Secrets are compared decrypted: sealing the same headers twice gives different texts. */
  predicate Same(env: Env, was: Data, now: Data) {
    was == now
    || (was.Secret? && now.Secret? && was.owner == now.owner && was.updatedAt == now.updatedAt
        && env.open(was.ciphertext, was.owner).Some?
        && env.open(was.ciphertext, was.owner) == env.open(now.ciphertext, now.owner))
  }

  function TermsOf(env: Env): Terms<Key, Data> { Terms((was: Data, now: Data) => Same(env, was, now), env.accepts) }

  lemma SameIsReflexive(env: Env)
    ensures forall d :: TermsOf(env).same(d, d)
  {
  }

  function In(table: string): Key -> bool { (k: Key) => k.table == table }

  // ---- the seed files ----

  function Existing(seeds: Seeds): map<string, string> { if seeds.Dir? then seeds.files else map[] }

  predicate Clash(was: map<string, string>, files: map<string, string>) {
    exists f :: f in was && f in files && was[f] != files[f]
  }

  function MergeSeeds(seeds: Seeds, files: map<string, string>): Result<Seeds, Failure> {
    if files == map[] then Ok(seeds)
    else if seeds.NotDir? then Err(SeedsNotDir)
    else if Clash(Existing(seeds), files) then Err(Refused(Conflict))
    else Ok(Dir(Existing(seeds) + files))
  }

  lemma SeedsAgain(seeds: Seeds, files: map<string, string>)
    requires MergeSeeds(seeds, files).Ok?
    ensures MergeSeeds(MergeSeeds(seeds, files).value, files) == MergeSeeds(seeds, files)
    ensures forall f | f in Existing(seeds) ::
              f in Existing(MergeSeeds(seeds, files).value)
                && Existing(MergeSeeds(seeds, files).value)[f] == Existing(seeds)[f]
  {
    if files != map[] {
      var merged := Existing(seeds) + files;
      assert merged + files == merged;
    }
  }

  // ---- the import as a whole ----

  datatype Summary = Summary(added: map<string, nat>, reused: map<string, nat>, applied: bool)

  function Tally(counts: map<string, nat>, table: string): nat { if table in counts then counts[table] else 0 }

  /** The archive as Prepare leaves it. */
  predicate Prepared(a: Archive) { DistinctKeys(a.rows) && forall i | 0 <= i < |a.rows| :: !Active(a.rows[i].data) }

  /** What an import without faults makes of the rows and the seeds, or why it is refused. */
  function Plan(env: Env, rows: Rows, seeds: Seeds, a: Archive): Result<(Rows, Seeds), Failure> {
    if !Quiet(rows) then Err(Busy)
    else
      var merged := MergeAll(TermsOf(env), rows, a.rows);
      if merged.Err? then Err(Refused(merged.error))
      else
        var files := MergeSeeds(seeds, a.seeds);
        if files.Err? then Err(files.error) else Ok((merged.value, files.value))
  }

  ghost predicate Counted(rows: Rows, archive: seq<Row<Key, Data>>, s: Summary) {
    forall table: string ::
      Tally(s.added, table) == Added(rows, archive, In(table))
        && Tally(s.reused, table) == Reused(rows, archive, In(table))
  }

  /** Added and reused together are the rows of the archive, table by table. */
  lemma CountsAddUp(rows: Rows, archive: seq<Row<Key, Data>>, s: Summary, table: string)
    requires Counted(rows, archive, s)
    ensures Tally(s.added, table) + Tally(s.reused, table) == Count(archive, In(table))
  {
    AddedPlusReused(rows, archive, In(table));
  }

  /** After an import no job is active, and every row of the archive is there. */
  lemma ImportIsQuiet(env: Env, rows: Rows, seeds: Seeds, a: Archive)
    requires Prepared(a) && Plan(env, rows, seeds, a).Ok?
    ensures var merged := Plan(env, rows, seeds, a).value.0;
            Quiet(merged) && Extends(rows, a.rows, merged) && Holds(TermsOf(env), a.rows, merged)
  {
    var merged := Plan(env, rows, seeds, a).value.0;
    SameIsReflexive(env);
    MergeIsUnion(TermsOf(env), rows, a.rows);
    forall k | k in merged ensures !Active(merged[k]) {
      if k !in rows {
        var i :| 0 <= i < |a.rows| && a.rows[i] == Row(k, merged[k]);
      }
    }
  }

  /** After an import every row of the archive is in the database: as it is, or for a secret as one with the same owner
      and time that opens to the same text. */
  lemma RowsArrive(env: Env, rows: Rows, seeds: Seeds, a: Archive, i: nat)
    requires Prepared(a) && Plan(env, rows, seeds, a).Ok? && i < |a.rows|
    ensures var merged, r := Plan(env, rows, seeds, a).value.0, a.rows[i];
            && r.key in merged
            && (!r.data.Secret? ==> merged[r.key] == r.data)
            && (r.data.Secret? ==>
                  && merged[r.key].Secret? && merged[r.key].owner == r.data.owner
                  && merged[r.key].updatedAt == r.data.updatedAt
                  && env.open(merged[r.key].ciphertext, r.data.owner) == env.open(r.data.ciphertext, r.data.owner))
  {
    ImportIsQuiet(env, rows, seeds, a);
    assert Same(env, Plan(env, rows, seeds, a).value.0[a.rows[i].key], a.rows[i].data);
  }

  /** What was in the database stays as it was, and what is new is a row of the archive. */
  lemma OldRowsStay(env: Env, rows: Rows, seeds: Seeds, a: Archive, k: Key)
    requires Prepared(a) && Plan(env, rows, seeds, a).Ok?
    ensures var merged := Plan(env, rows, seeds, a).value.0;
            && (k in rows ==> k in merged && merged[k] == rows[k])
            && (k in merged && k !in rows ==> exists i | 0 <= i < |a.rows| :: a.rows[i] == Row(k, merged[k]))
  {
    ImportIsQuiet(env, rows, seeds, a);
    var merged := Plan(env, rows, seeds, a).value.0;
    if k in merged && k !in rows {
      var i :| 0 <= i < |a.rows| && a.rows[i] == Row(k, merged[k]);
    }
  }

  /** After an import every seed file of the archive is in the directory, every old one still is, and no other. */
  lemma SeedsArrive(env: Env, rows: Rows, seeds: Seeds, a: Archive, f: string)
    requires Plan(env, rows, seeds, a).Ok?
    ensures var now := Existing(Plan(env, rows, seeds, a).value.1);
            && (f in a.seeds ==> f in now && now[f] == a.seeds[f])
            && (f in Existing(seeds) ==> f in now && now[f] == Existing(seeds)[f])
            && (f in now ==> f in a.seeds || f in Existing(seeds))
  {
    assert f in a.seeds && f in Existing(seeds) ==> a.seeds[f] == Existing(seeds)[f];
  }

  /** An import is refused for a running job, a differing row or seed file, a row the database does not take, or a seed
      path that is no directory, and for nothing else. */
  lemma RefusedExactly(env: Env, rows: Rows, seeds: Seeds, a: Archive)
    ensures Plan(env, rows, seeds, a).Err? <==>
              || (exists k | k in rows :: rows[k].Job? && (rows[k].status == "queued" || rows[k].status == "running"))
              || MergeAll(TermsOf(env), rows, a.rows).Err?
              || (a.seeds != map[] && seeds.NotDir?)
              || exists f :: f in a.seeds && f in Existing(seeds) && a.seeds[f] != Existing(seeds)[f]
  {
    assert Quiet(rows) <==> !exists k | k in rows ::
             rows[k].Job? && (rows[k].status == "queued" || rows[k].status == "running");
  }

  /** Two preparations of one upload: every secret is sealed anew, and everything else is as it was. */
  predicate Resealed(env: Env, a: Archive, b: Archive) {
    AlikeRows(TermsOf(env), a.rows, b.rows) && a.seeds == b.seeds && a.snapshots == b.snapshots
      && a.keyRequired == b.keyRequired
  }

  /** No constraint of the database looks into a sealed text. */
  ghost predicate BlindToSeals(env: Env) { Blind(TermsOf(env)) }

  lemma SameCompares(env: Env)
    ensures Comparable(TermsOf(env))
  {
  }

  /** The archive prepared once more, after the audit row of the first import: admitted, and nothing of it is added. */
  lemma ImportAgain(env: Env, rows: Rows, seeds: Seeds, a: Archive, b: Archive, audit: Key, entry: Data, table: string)
    requires Prepared(a) && Resealed(env, a, b) && Plan(env, rows, seeds, a).Ok?
    requires audit !in Plan(env, rows, seeds, a).value.0 && !Active(entry)
    ensures var (merged, files) := Plan(env, rows, seeds, a).value;
            var now := merged[audit := entry];
            && Plan(env, now, files, b) == Ok((now, files))
            && Added(now, b.rows, In(table)) == 0 && Reused(now, b.rows, In(table)) == Count(b.rows, In(table))
  {
    var (merged, files) := Plan(env, rows, seeds, a).value;
    var now := merged[audit := entry];
    ImportIsQuiet(env, rows, seeds, a);
    HoldsGrows(TermsOf(env), a.rows, merged, audit, entry);
    SameCompares(env);
    HoldsAlike(TermsOf(env), now, a.rows, b.rows);
    MergeAgain(TermsOf(env), now, b.rows, In(table));
    AddedPlusReused(now, b.rows, In(table));
    SeedsAgain(seeds, a.seeds);
  }

  /** What one preparation is told the next one meets: the same refusal, or the same seeds, rows that
      compare equal, equal counts. */
  lemma PreviewPredicts(env: Env, rows: Rows, seeds: Seeds, a: Archive, b: Archive, s: Summary, t: Summary,
                        table: string)
    requires BlindToSeals(env) && Resealed(env, a, b)
    requires Counted(rows, a.rows, s) && Counted(rows, b.rows, t)
    ensures Tally(s.added, table) == Tally(t.added, table) && Tally(s.reused, table) == Tally(t.reused, table)
    ensures var p, q := Plan(env, rows, seeds, a), Plan(env, rows, seeds, b);
            if p.Err? then q == p else q.Ok? && q.value.1 == p.value.1 && Alike(TermsOf(env), p.value.0, q.value.0)
  {
    SameCompares(env);
    MergeAlike(TermsOf(env), rows, a.rows, b.rows);
    CountsAlike(TermsOf(env), rows, a.rows, b.rows, In(table));
    assert Tally(s.added, table) == Added(rows, a.rows, In(table))
           && Tally(t.added, table) == Added(rows, b.rows, In(table));
    assert Tally(s.reused, table) == Reused(rows, a.rows, In(table))
           && Tally(t.reused, table) == Reused(rows, b.rows, In(table));
  }

  /** Any id with different contents, or any seed file with different contents, is enough to refuse. */
  lemma DifferenceRefusesImport(env: Env, rows: Rows, seeds: Seeds, a: Archive)
    requires (exists i | 0 <= i < |a.rows| :: a.rows[i].key in rows && !Same(env, rows[a.rows[i].key], a.rows[i].data))
             || Clash(Existing(seeds), a.seeds)
    ensures Plan(env, rows, seeds, a).Err?
  {
    if !Clash(Existing(seeds), a.seeds) {
      var i :| 0 <= i < |a.rows| && a.rows[i].key in rows && !Same(env, rows[a.rows[i].key], a.rows[i].data);
      SameIsReflexive(env);
      DifferenceRefuses(TermsOf(env), rows, a.rows, i);
    }
  }

  // ---- the loops ----

  function Bumped(counts: map<string, nat>, table: string): map<string, nat> {
    counts[table := Tally(counts, table) + 1]
  }

  ghost predicate Merged(env: Env, db: Rows, rows: seq<Row<Key, Data>>, tx: Rows, s: Summary) {
    MergeAll(TermsOf(env), db, rows) == Ok(tx) && Counted(db, rows, s)
  }

  lemma MergedNext(env: Env, db: Rows, rows: seq<Row<Key, Data>>, i: nat, tx: Rows, s: Summary)
    requires i < |rows| && DistinctKeys(rows) && Merged(env, db, rows[..i], tx, s)
    ensures var row := rows[i];
            var t := row.key.table;
            if row.key in tx then
              if Same(env, tx[row.key], row.data) then
                Merged(env, db, rows[..i + 1], tx, s.(reused := Bumped(s.reused, t)))
              else MergeAll(TermsOf(env), db, rows[..i + 1]) == Err(Conflict)
            else if !env.accepts(tx, row.key, row.data) then MergeAll(TermsOf(env), db, rows[..i + 1]) == Err(Rejected)
            else Merged(env, db, rows[..i + 1], tx[row.key := row.data], s.(added := Bumped(s.added, t)))
  {
    var row := rows[i];
    SameIsReflexive(env);
    assert rows[..i + 1][..i] == rows[..i];
    MergeKeys(TermsOf(env), db, rows[..i], row.key);
    var t := row.key.table;
    var more := if row.key in tx then s.(reused := Bumped(s.reused, t)) else s.(added := Bumped(s.added, t));
    forall table: string
      ensures Tally(more.added, table) == Added(db, rows[..i + 1], In(table))
      ensures Tally(more.reused, table) == Reused(db, rows[..i + 1], In(table))
    {
      assert Tally(s.added, table) == Added(db, rows[..i], In(table));
      assert Tally(s.reused, table) == Reused(db, rows[..i], In(table));
    }
  }

  lemma {:induction false} FailureStays<K, D>(t: Terms<K, D>, db: map<K, D>, rows: seq<Row<K, D>>, i: nat)
    requires i <= |rows| && MergeAll(t, db, rows[..i]).Err?
    ensures MergeAll(t, db, rows) == MergeAll(t, db, rows[..i])
    decreases |rows|
  {
    if i < |rows| {
      var n := |rows| - 1;
      assert rows[..n][..i] == rows[..i];
      FailureStays(t, db, rows[..n], i);
    } else {
      assert rows[..i] == rows;
    }
  }

  method MergeRows(env: Env, db: Rows, rows: seq<Row<Key, Data>>) returns (r: Result<Rows, Refusal>, s: Summary)
    requires DistinctKeys(rows)
    ensures r == MergeAll(TermsOf(env), db, rows)
    ensures r.Ok? ==> Counted(db, rows, s) && !s.applied
  {
    var tx := db;
    s := Summary(map[], map[], false);
    for i := 0 to |rows|
      invariant Merged(env, db, rows[..i], tx, s) && !s.applied
    {
      MergedNext(env, db, rows, i, tx, s);
      var row := rows[i];
      if row.key in tx {
        if !Same(env, tx[row.key], row.data) {
          FailureStays(TermsOf(env), db, rows, i + 1);
          return Err(Conflict), s;
        }
        s := s.(reused := Bumped(s.reused, row.key.table));
        continue;
      }
      if !env.accepts(tx, row.key, row.data) {
        FailureStays(TermsOf(env), db, rows, i + 1);
        return Err(Rejected), s;
      }
      tx := tx[row.key := row.data];
      s := s.(added := Bumped(s.added, row.key.table));
    }
    assert rows[..|rows|] == rows;
    return Ok(tx), s;
  }

  /** The stage starts as a copy of the seed directory; each file of the archive is
      compared or written, in any order. */
  method StageSeeds(was: map<string, string>, files: map<string, string>) returns (stage: Option<map<string, string>>)
    ensures stage == if Clash(was, files) then None else Some(was + files)
  {
    var now, left := was, files.Keys;
    while left != {}
      invariant left <= files.Keys && now == was + (map f | f in files && f !in left :: files[f])
      invariant forall f | f in files && f !in left && f in was :: was[f] == files[f]
    {
      var f :| f in left;
      if f in now {
        if now[f] != files[f] {
          return None;
        }
      } else {
        now := now[f := files[f]];
      }
      left := left - {f};
    }
    assert (map f | f in files && f !in left :: files[f]) == files;
    return Some(now);
  }

  class Workspace {
    var rows: Rows
    var seeds: Seeds
    var snapshots: set<string>

    constructor (rows: Rows, seeds: Seeds, snapshots: set<string>)
      ensures this.rows == rows && this.seeds == seeds && this.snapshots == snapshots
    {
      this.rows, this.seeds, this.snapshots := rows, seeds, snapshots;
    }

    /**
     * All or nothing across the database and the seed directory. Snapshots are named by their contents, so one that a
     * failed import leaves behind belongs to nobody and harms nobody.
     */
    method Import(env: Env, a: Archive, preview: bool, audit: Key, entry: Data, faults: Faults)
      returns (r: Result<Summary, Failure>)
      requires Prepared(a)
      modifies this
      ensures a.keyRequired ==> r == (if preview then Ok(Summary(map[], map[], false)) else Err(KeyRequired))
      ensures a.keyRequired || preview || r.Err? ==> rows == old(rows) && seeds == old(seeds)
      ensures !a.keyRequired && Plan(env, old(rows), old(seeds), a).Err? ==> r.Err?
      ensures !a.keyRequired && r.Ok? ==>
        Plan(env, old(rows), old(seeds), a).Ok? && Counted(old(rows), a.rows, r.value) && r.value.applied == !preview
      ensures !a.keyRequired && r.Ok? && !preview ==>
        var (merged, files) := Plan(env, old(rows), old(seeds), a).value;
        audit !in merged && rows == merged[audit := entry] && seeds == files
          && snapshots == old(snapshots) + a.snapshots
      ensures old(snapshots) <= snapshots <= old(snapshots) + a.snapshots
      ensures (&& !a.keyRequired && faults == NO_FAULTS && Plan(env, old(rows), old(seeds), a).Ok?
               && audit !in Plan(env, old(rows), old(seeds), a).value.0) ==> r.Ok?
    {
      if a.keyRequired {
        if preview {
          return Ok(Summary(map[], map[], false));
        }
        return Err(KeyRequired);
      }
      // The transaction works on its own copy of the rows until it commits.
      if !Quiet(rows) {
        return Err(Busy);
      }
      var merged, s := MergeRows(env, rows, a.rows);
      if merged.Err? {
        return Err(Refused(merged.error));
      }
      var tx := merged.value;
      var stage := Missing;
      if a.seeds != map[] {
        if faults.stage {
          return Err(DiskFailed);
        }
        if seeds.NotDir? {
          return Err(SeedsNotDir);
        }
        var staged := StageSeeds(Existing(seeds), a.seeds);
        if staged == None {
          return Err(Refused(Conflict));
        }
        stage := Dir(staged.value);
      }
      if preview {
        return Ok(s);
      }
      if faults.snapshot {
        return Err(DiskFailed);
      }
      snapshots := snapshots + a.snapshots;
      var switched, backup := false, seeds;
      if a.seeds != map[] {
        if seeds.Dir? {
          if faults.backup {
            return Err(DiskFailed);
          }
          seeds := Missing;
        }
        if faults.swap {
          if backup.Dir? {
            seeds := backup;
          }
          return Err(DiskFailed);
        }
        seeds := stage;
        switched := true;
      }
      if faults.audit || audit in tx || faults.commit {
        if switched {
          seeds := Missing;
          if backup.Dir? {
            seeds := backup;
          }
        }
        return Err(CommitFailed);
      }
      rows := tx[audit := entry];
      return Ok(s.(applied := true));
    }
  }
}
