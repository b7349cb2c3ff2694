/** Prepare of internal/transfer/manager.go: what an upload becomes before it is previewed or imported. */
module Preparation {
  import opened Common
  import opened Merging
  import opened MergeImport

  /** An unpacked upload. Its records stand in table order; snapshotsOpen says whether the
      given key opens every snapshot. */
  datatype Upload = Upload(records: seq<Row<Key, Data>>, jobs: seq<Row<Key, Data>>, seeds: map<string, string>,
                           snapshots: set<string>, snapshotsOpen: bool)

  /** The given key, this instance's vault with the nonce as an argument, and the checks of a
      secret's and a record's JSON. */
  datatype Keys = Keys(open: (string, string) -> Option<string>, seal: (string, string, string) -> string,
                       headersOk: string -> bool, identified: Row<Key, Data> -> bool)

  const SECRETS := "secrets"
  const MAX_RECORDS := 100000

  /** Jobs come from their own table and from no other. */
  predicate Tabled(u: Upload) {
    && (forall i | 0 <= i < |u.records| :: u.records[i].key.table != "jobs" && !u.records[i].data.Job?)
    && forall i | 0 <= i < |u.jobs| :: u.jobs[i].key.table == "jobs"
  }

  /** What this instance seals, it opens, whatever the nonce. */
  ghost predicate SealOpens(env: Env, keys: Keys) {
    forall plain, owner, nonce :: env.open(keys.seal(plain, owner, nonce), owner) == Some(plain)
  }

  // ---- records and secrets ----

  predicate KnownRecord(keys: Keys, r: Row<Key, Data>) { RecordId(r.key.id) && keys.identified(r) }

  predicate AllKnownRecords(keys: Keys, rows: seq<Row<Key, Data>>) {
    forall i | 0 <= i < |rows| :: KnownRecord(keys, rows[i])
  }

  predicate SecretOk(keys: Keys, r: Row<Key, Data>) {
    r.key.table == SECRETS ==>
      && r.data.Secret? && r.data.owner != ""
      && var plain := keys.open(r.data.ciphertext, r.data.owner); plain.Some? ==> keys.headersOk(plain.value)
  }

  predicate SecretsOk(keys: Keys, rows: seq<Row<Key, Data>>) { forall i | 0 <= i < |rows| :: SecretOk(keys, rows[i]) }

  /** A secret that the given key does not open. */
  predicate Locked(keys: Keys, r: Row<Key, Data>) {
    r.key.table == SECRETS && r.data.Secret? && keys.open(r.data.ciphertext, r.data.owner).None?
  }

  predicate AnyLocked(keys: Keys, rows: seq<Row<Key, Data>>) { exists i | 0 <= i < |rows| :: Locked(keys, rows[i]) }

  function SealedAnew(keys: Keys, r: Row<Key, Data>, nonce: string): Row<Key, Data> {
    if r.key.table != SECRETS || !r.data.Secret? || Locked(keys, r) then r
    else
      var plain := keys.open(r.data.ciphertext, r.data.owner).value;
      Row(r.key, r.data.(ciphertext := keys.seal(plain, r.data.owner, nonce)))
  }

  function AllSealedAnew(keys: Keys, rows: seq<Row<Key, Data>>, nonces: nat -> string): (r: seq<Row<Key, Data>>)
    ensures |r| == |rows|
  {
    seq(|rows|, i requires 0 <= i < |rows| => SealedAnew(keys, rows[i], nonces(i)))
  }

  method CheckRecords(keys: Keys, rows: seq<Row<Key, Data>>) returns (ok: bool)
    ensures ok <==> DistinctKeys(rows) && AllKnownRecords(keys, rows)
  {
    var seen: set<Key> := {};
    for i := 0 to |rows|
      invariant seen == KeysOf(rows[..i]) && DistinctKeys(rows[..i]) && AllKnownRecords(keys, rows[..i])
    {
      DistinctNext(rows, i);
      if rows[i].key in seen || !KnownRecord(keys, rows[i]) {
        return false;
      }
      seen := seen + {rows[i].key};
    }
    assert rows[..|rows|] == rows;
    return true;
  }

  method ResealSecrets(keys: Keys, rows: seq<Row<Key, Data>>, nonces: nat -> string)
    returns (r: Option<seq<Row<Key, Data>>>, locked: bool)
    ensures r.Some? <==> SecretsOk(keys, rows)
    ensures r.Some? ==> r.value == AllSealedAnew(keys, rows, nonces) && locked == AnyLocked(keys, rows)
  {
    var out: seq<Row<Key, Data>> := [];
    locked := false;
    for i := 0 to |rows|
      invariant |out| == i && forall j | 0 <= j < i :: out[j] == SealedAnew(keys, rows[j], nonces(j))
      invariant forall j | 0 <= j < i :: SecretOk(keys, rows[j])
      invariant locked == exists j | 0 <= j < i :: Locked(keys, rows[j])
    {
      var row := rows[i];
      if row.key.table == SECRETS {
        if !row.data.Secret? || row.data.owner == "" {
          return None, locked;
        }
        var plain := keys.open(row.data.ciphertext, row.data.owner);
        if plain == None {
          locked := true;
        } else {
          if !keys.headersOk(plain.value) {
            return None, locked;
          }
          row := Row(row.key, row.data.(ciphertext := keys.seal(plain.value, row.data.owner, nonces(i))));
        }
      }
      out := out + [row];
    }
    return Some(out), locked;
  }

  // ---- the whole preparation ----

  function Ready(keys: Keys, u: Upload, nonces: nat -> string): Option<Archive> {
    if && DistinctKeys(u.records) && AllKnownRecords(keys, u.records) && |u.records| + |u.jobs| <= MAX_RECORDS
       && SecretsOk(keys, u.records) && DistinctKeys(u.jobs) && AllKnown(u.jobs)
    then Some(Archive(AllSealedAnew(keys, u.records, nonces) + AllRewritten(u.jobs), u.seeds, u.snapshots,
                      !u.snapshotsOpen || AnyLocked(keys, u.records)))
    else None
  }

  method Prepare(keys: Keys, u: Upload, nonces: nat -> string) returns (r: Option<Archive>, interrupted: nat)
    requires Tabled(u)
    ensures r == Ready(keys, u, nonces)
    ensures r.Some? ==> Prepared(r.value) && interrupted == Interrupted(u.jobs)
  {
    interrupted := 0;
    var ok := CheckRecords(keys, u.records);
    if !ok || |u.records| + |u.jobs| > MAX_RECORDS {
      return None, interrupted;
    }
    var keyRequired := !u.snapshotsOpen;
    var sealed, locked := ResealSecrets(keys, u.records, nonces);
    if sealed == None {
      return None, interrupted;
    }
    if locked {
      keyRequired := true;
    }
    var jobs;
    jobs, interrupted := PrepareJobs(u.jobs);
    if jobs == None {
      return None, interrupted;
    }
    r := Some(Archive(sealed.value + jobs.value, u.seeds, u.snapshots, keyRequired));
    ReadyIsPrepared(keys, u, nonces);
  }

  /** Whatever is made of an upload is fit for the import: no key twice, no job active. */
  lemma ReadyIsPrepared(keys: Keys, u: Upload, nonces: nat -> string)
    requires Tabled(u) && Ready(keys, u, nonces).Some?
    ensures Prepared(Ready(keys, u, nonces).value)
  {
    var rows, n := AllSealedAnew(keys, u.records, nonces) + AllRewritten(u.jobs), |u.records|;
    forall i | 0 <= i < |rows|
      ensures rows[i].key == (if i < n then u.records[i].key else u.jobs[i - n].key) && !Active(rows[i].data)
    {
      if i < n {
        assert rows[i] == SealedAnew(keys, u.records[i], nonces(i));
      } else {
        RewritingEndsJobs(u.jobs, i - n);
        assert rows[i] == AllRewritten(u.jobs)[i - n];
      }
    }
  }

  /** One upload prepared twice: admitted both times or neither, and but for the seals the two results are one. */
  lemma PreparedTwice(env: Env, keys: Keys, u: Upload, first: nat -> string, second: nat -> string)
    requires SealOpens(env, keys)
    ensures Ready(keys, u, first).Some? <==> Ready(keys, u, second).Some?
    ensures Ready(keys, u, first).Some? ==> Resealed(env, Ready(keys, u, first).value, Ready(keys, u, second).value)
  {
    if Ready(keys, u, first).Some? {
      var a, b := Ready(keys, u, first).value.rows, Ready(keys, u, second).value.rows;
      forall i | 0 <= i < |a| ensures a[i].key == b[i].key && Same(env, a[i].data, b[i].data) {
        if i < |u.records| {
          SealsCompare(env, keys, u.records[i], first(i), second(i));
        }
      }
    }
  }

  lemma SealsCompare(env: Env, keys: Keys, r: Row<Key, Data>, first: string, second: string)
    requires SealOpens(env, keys)
    ensures var a, b := SealedAnew(keys, r, first), SealedAnew(keys, r, second);
            a.key == b.key && Same(env, a.data, b.data)
  {
  }

  /** What one record becomes: a secret that the given key opens is, under this instance's key, the same credentials of
      the same owner and time; every other record is as it was sent. */
  ghost predicate Kept(env: Env, keys: Keys, r: Row<Key, Data>, a: Row<Key, Data>) {
    if r.key.table == "secrets" && r.data.Secret? && keys.open(r.data.ciphertext, r.data.owner).Some? then
      && a.key == r.key && a.data.Secret? && a.data.owner == r.data.owner && a.data.updatedAt == r.data.updatedAt
      && env.open(a.data.ciphertext, a.data.owner) == keys.open(r.data.ciphertext, r.data.owner)
    else a == r
  }

  lemma SealingKeeps(env: Env, keys: Keys, r: Row<Key, Data>, nonce: string)
    requires SealOpens(env, keys)
    ensures Kept(env, keys, r, SealedAnew(keys, r, nonce))
  {
  }

  /** Nothing of an upload is lost or altered but the seals. */
  lemma CredentialsAreKept(env: Env, keys: Keys, u: Upload, nonces: nat -> string, i: nat)
    requires SealOpens(env, keys) && Ready(keys, u, nonces).Some? && i < |u.records|
    ensures |Ready(keys, u, nonces).value.rows| == |u.records| + |u.jobs|
    ensures Kept(env, keys, u.records[i], Ready(keys, u, nonces).value.rows[i])
  {
    var rows := AllSealedAnew(keys, u.records, nonces) + AllRewritten(u.jobs);
    assert Ready(keys, u, nonces).value.rows == rows;
    assert rows[i] == SealedAnew(keys, u.records[i], nonces(i));
    SealingKeeps(env, keys, u.records[i], nonces(i));
  }

  /** The key is asked for exactly when it fails to open a snapshot or a secret. */
  lemma KeyIsRequired(keys: Keys, u: Upload, nonces: nat -> string)
    requires Ready(keys, u, nonces).Some?
    ensures Ready(keys, u, nonces).value.keyRequired <==>
              || !u.snapshotsOpen
              || exists i | 0 <= i < |u.records| ::
                   u.records[i].key.table == "secrets" && u.records[i].data.Secret?
                   && keys.open(u.records[i].data.ciphertext, u.records[i].data.owner) == None
  {
  }

  /** After an import the database holds the credentials that were uploaded, newly sealed or in a row that was there. */
  lemma CredentialsArrive(env: Env, keys: Keys, u: Upload, nonces: nat -> string, rows: Rows, seeds: Seeds, i: nat)
    requires SealOpens(env, keys) && Tabled(u) && Ready(keys, u, nonces).Some? && i < |u.records|
    requires u.records[i].key.table == "secrets" && u.records[i].data.Secret?
    requires keys.open(u.records[i].data.ciphertext, u.records[i].data.owner).Some?
    requires Plan(env, rows, seeds, Ready(keys, u, nonces).value).Ok?
    ensures var merged, r := Plan(env, rows, seeds, Ready(keys, u, nonces).value).value.0, u.records[i];
            && r.key in merged && merged[r.key].Secret?
            && merged[r.key].owner == r.data.owner && merged[r.key].updatedAt == r.data.updatedAt
            && env.open(merged[r.key].ciphertext, merged[r.key].owner) == keys.open(r.data.ciphertext, r.data.owner)
  {
    ReadyIsPrepared(keys, u, nonces);
    CredentialsAreKept(env, keys, u, nonces, i);
    RowsArrive(env, rows, seeds, Ready(keys, u, nonces).value, i);
  }

  /** An upload is admitted exactly when no key comes twice, every record and job is of a known form, there are not too
      many, and every secret has an owner and, if the given key opens it, headers that may be sent. */
  lemma AdmittedExactly(keys: Keys, u: Upload, nonces: nat -> string)
    ensures Ready(keys, u, nonces).Some? <==>
              && |u.records| + |u.jobs| <= 100000
              && (forall i, j | 0 <= i < j < |u.records| :: u.records[i].key != u.records[j].key)
              && (forall i, j | 0 <= i < j < |u.jobs| :: u.jobs[i].key != u.jobs[j].key)
              && (forall r | r in u.records ::
                    && 1 <= |r.key.id| <= 200 && (forall c | c in r.key.id :: IdChar(c)) && keys.identified(r)
                    && (r.key.table == "secrets" ==>
                          && r.data.Secret? && r.data.owner != ""
                          && var plain := keys.open(r.data.ciphertext, r.data.owner);
                             plain.Some? ==> keys.headersOk(plain.value)))
              && (forall r | r in u.jobs ::
                    && 1 <= |r.key.id| <= 200 && (forall c | c in r.key.id :: IdChar(c)) && r.data.Job?
                    && (r.data.status == "queued" || r.data.status == "running" || r.data.status == "succeeded"
                        || r.data.status == "failed"))
  {
  }

  // ---- an upload that comes twice ----

  /** The preview of an upload tells what applying it later, prepared anew, will do, as long as nothing else changes. */
  lemma PreviewPredictsApply(env: Env, keys: Keys, u: Upload, first: nat -> string, second: nat -> string, rows: Rows,
                             seeds: Seeds, s: Summary, t: Summary, table: string)
    requires SealOpens(env, keys) && BlindToSeals(env) && Ready(keys, u, first).Some?
    requires Counted(rows, Ready(keys, u, first).value.rows, s)
    requires Ready(keys, u, second).Some? ==> Counted(rows, Ready(keys, u, second).value.rows, t)
    ensures Ready(keys, u, second).Some?
    ensures Tally(s.added, table) == Tally(t.added, table) && Tally(s.reused, table) == Tally(t.reused, table)
    ensures var a, b := Ready(keys, u, first).value, Ready(keys, u, second).value;
            var p, q := Plan(env, rows, seeds, a), Plan(env, rows, seeds, b);
            if p.Err? then q == p else q.Ok? && q.value.1 == p.value.1 && Alike(TermsOf(env), p.value.0, q.value.0)
  {
    PreparedTwice(env, keys, u, first, second);
    PreviewPredicts(env, rows, seeds, Ready(keys, u, first).value, Ready(keys, u, second).value, s, t, table);
  }

  /** An upload imported once is admitted again, prepared anew, and adds no row: every one of its rows is reused. */
  lemma UploadAgain(env: Env, keys: Keys, u: Upload, first: nat -> string, second: nat -> string, rows: Rows,
                    seeds: Seeds, audit: Key, entry: Data, table: string)
    requires SealOpens(env, keys) && Tabled(u) && Ready(keys, u, first).Some?
    requires Plan(env, rows, seeds, Ready(keys, u, first).value).Ok?
    requires audit !in Plan(env, rows, seeds, Ready(keys, u, first).value).value.0 && !Active(entry)
    ensures Ready(keys, u, second).Some?
    ensures var (merged, files) := Plan(env, rows, seeds, Ready(keys, u, first).value).value;
            var now, b := merged[audit := entry], Ready(keys, u, second).value;
            && Plan(env, now, files, b) == Ok((now, files))
            && Added(now, b.rows, In(table)) == 0 && Reused(now, b.rows, In(table)) == Count(b.rows, In(table))
  {
    ReadyIsPrepared(keys, u, first);
    PreparedTwice(env, keys, u, first, second);
    ImportAgain(env, rows, seeds, Ready(keys, u, first).value, Ready(keys, u, second).value, audit, entry, table);
  }
}
