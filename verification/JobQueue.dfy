/** The leased job queue of internal/service/jobs.go: the rows of the jobs table and the statements run on them. */
module JobQueue {
  import opened Common

  type Id = string

  // PostgreSQL timestamps count microseconds.
  const SECOND := 1_000_000
  const LEASE := 120 * SECOND
  const BODY_LIMIT := 95 * SECOND
  const FINISH_LIMIT := 5 * SECOND
  const MAX_ATTEMPTS := 3

  datatype Status = Queued | Running | Succeeded | Failed

  datatype Job = Job(
    kind: string, target: string, status: Status, attempts: nat,
    availableAt: int, createdAt: int,
    leaseUntil: Option<int>, leaseToken: Option<Id>,
    error: string, finishedAt: Option<int>)
  {
    predicate Active() { status == Queued || status == Running }
  }

  type Rows = map<Id, Job>

  datatype QueueError = UnsupportedKind | TargetNotFound | NotFailed | ActiveTargetExists

  const KINDS := {"source.sync", "source.probe", "set.publish", "catalog.sync", "runtime.test", "runtime.sync"}

  // ---- what each statement does to the rows ----

  predicate HasActive(rows: Rows, kind: string, target: string) {
    exists j | j in rows :: rows[j].Active() && rows[j].kind == kind && rows[j].target == target
  }

  function Inserted(rows: Rows, id: Id, kind: string, target: string, now: int): Rows {
    if HasActive(rows, kind, target) then rows
    else rows[id := Job(kind, target, Queued, 0, now, now, None, None, "", None)]
  }

  function Retried(rows: Rows, id: Id, now: int): Result<Rows, QueueError> {
    if id !in rows || rows[id].status != Failed then Err(NotFailed)
    else if HasActive(rows, rows[id].kind, rows[id].target) then Err(ActiveTargetExists)
    else Ok(rows[id := rows[id].(status := Queued, attempts := 0, error := "", availableAt := now, finishedAt := None)])
  }

  predicate Expired(j: Job, now: int) {
    j.status == Running && j.leaseUntil.Some? && j.leaseUntil.value < now
  }

  function ReclaimJob(j: Job, now: int): Job {
    if Expired(j, now) then
      j.(status := if j.attempts >= MAX_ATTEMPTS then Failed else Queued,
         error := "worker_lease_expired", leaseToken := None, leaseUntil := None)
    else j
  }

  function Reclaimed(rows: Rows, now: int): Rows {
    map id | id in rows :: ReclaimJob(rows[id], now)
  }

  predicate Claimable(rows: Rows, now: int, id: Id) {
    id in rows && rows[id].status == Queued && rows[id].availableAt <= now
  }

  predicate Before(a: Job, b: Job) {
    a.availableAt < b.availableAt || (a.availableAt == b.availableAt && a.createdAt <= b.createdAt)
  }

  /** id is a row that ORDER BY available_at, created_at LIMIT 1 may return. */
  ghost predicate IsNext(rows: Rows, now: int, id: Id) {
    Claimable(rows, now, id) && forall j | Claimable(rows, now, j) :: Before(rows[id], rows[j])
  }

  function Claimed(rows: Rows, id: Id, token: Id, now: int): Rows
    requires id in rows
  {
    rows[id := rows[id].(status := Running, attempts := rows[id].attempts + 1,
                         leaseUntil := Some(now + LEASE), leaseToken := Some(token))]
  }

  predicate Holds(rows: Rows, id: Id, token: Id) {
    id in rows && rows[id].leaseToken == Some(token)
  }

  function Renewed(rows: Rows, id: Id, token: Id, now: int): Rows {
    if Holds(rows, id, token) && rows[id].status == Running then rows[id := rows[id].(leaseUntil := Some(now + LEASE))]
    else rows
  }

  /** How the body of a job ended; the error classes that work distinguishes. */
  datatype Outcome = Done | Missing | Conflict | Broken

  function EndAttempts(o: Outcome, attempts: nat): nat { if o == Missing then MAX_ATTEMPTS else attempts }

  function EndStatus(o: Outcome, attempts: nat): Status {
    if o == Done then Succeeded else if EndAttempts(o, attempts) >= MAX_ATTEMPTS then Failed else Queued
  }

  function EndCode(o: Outcome): string {
    match o
    case Done => ""
    case Missing => "target_not_found"
    case Conflict => "configuration_changed"
    case Broken => "upstream_or_validation_failed"
  }

  function Finished(rows: Rows, id: Id, token: Id, o: Outcome, attempts: nat, now: int): Rows {
    if Holds(rows, id, token) then
      var n := EndAttempts(o, attempts);
      var s := EndStatus(o, attempts);
      rows[id := rows[id].(status := s, error := EndCode(o), availableAt := now + n * n * 15 * SECOND,
                           leaseUntil := None, leaseToken := None,
                           finishedAt := if s == Queued then None else Some(now))]
    else rows
  }

  // ---- the table as the workers see it ----

  datatype Claim = Claim(id: Id, kind: string, target: string, attempts: nat)

  class JobTable {
    var rows: Rows

    constructor ()
      ensures rows == map[]
    {
      rows := map[];
    }

    /** Enqueue and enqueue: insert unless an active job for the target exists, then return the active job. */
    method Enqueue(id: Id, kind: string, target: string, targetExists: bool, now: int)
      returns (r: Result<Id, QueueError>)
      requires id !in rows
      modifies this
      ensures r.Err? <==> kind !in KINDS || !targetExists
      ensures r.Err? ==> rows == old(rows) && r.error == if kind !in KINDS then UnsupportedKind else TargetNotFound
      ensures r.Ok? ==> rows == Inserted(old(rows), id, kind, target, now)
      ensures r.Ok? ==> r.value in rows && rows[r.value].Active()
      ensures r.Ok? ==> rows[r.value].kind == kind && rows[r.value].target == target
      ensures r.Ok? ==> (r.value == id <==> !HasActive(old(rows), kind, target))
    {
      if kind !in KINDS { return Err(UnsupportedKind); }
      if !targetExists { return Err(TargetNotFound); }
      if !HasActive(rows, kind, target) {
        rows := rows[id := Job(kind, target, Queued, 0, now, now, None, None, "", None)];
        assert rows[id].Active();
        return Ok(id);
      }
      var active :| active in rows && rows[active].Active()
                    && rows[active].kind == kind && rows[active].target == target;
      r := Ok(active);
    }

    method Retry(id: Id, now: int) returns (r: Result<(), QueueError>)
      modifies this
      ensures match Retried(old(rows), id, now)
              case Ok(after) => r == Ok(()) && rows == after
              case Err(e) => r == Err(e) && rows == old(rows)
    {
      if id !in rows || rows[id].status != Failed { return Err(NotFailed); }
      var j := rows[id];
      if HasActive(rows, j.kind, j.target) { return Err(ActiveTargetExists); }
      rows := rows[id := j.(status := Queued, attempts := 0, error := "", availableAt := now, finishedAt := None)];
      r := Ok(());
    }

    /** One poll of work: reclaim and claim in one transaction, rolled back when nothing is claimable. */
    method Poll(token: Id, now: int) returns (claim: Option<Claim>)
      modifies this
      ensures claim.None? ==> rows == old(rows) && forall j :: !Claimable(Reclaimed(old(rows), now), now, j)
      ensures claim.Some? ==>
        && IsNext(Reclaimed(old(rows), now), now, claim.value.id)
        && rows == Claimed(Reclaimed(old(rows), now), claim.value.id, token, now)
        && var j := rows[claim.value.id]; claim.value == Claim(claim.value.id, j.kind, j.target, j.attempts)
    {
      var tx := Reclaimed(rows, now);
      var first: Option<Id> := None;
      var rest := tx.Keys;
      while rest != {}
        invariant rest <= tx.Keys
        invariant first.None? ==> forall j | j in tx.Keys - rest :: !Claimable(tx, now, j)
        invariant first.Some? ==> Claimable(tx, now, first.value)
        invariant first.Some? ==>
                    forall j | j in tx.Keys - rest && Claimable(tx, now, j) :: Before(tx[first.value], tx[j])
        decreases rest
      {
        var j :| j in rest;
        rest := rest - {j};
        if tx[j].status == Queued && tx[j].availableAt <= now && (first.None? || !Before(tx[first.value], tx[j])) {
          first := Some(j);
        }
      }
      if first.None? {
        assert forall j :: Claimable(tx, now, j) ==> j in tx.Keys;
        return None;
      }
      var id := first.value;
      var j := tx[id];
      tx := tx[id := j.(status := Running, attempts := j.attempts + 1, leaseUntil := Some(now + LEASE),
                        leaseToken := Some(token))];
      rows := tx;
      claim := Some(Claim(id, j.kind, j.target, j.attempts + 1));
    }

    method Heartbeat(id: Id, token: Id, now: int)
      modifies this
      ensures rows == Renewed(old(rows), id, token, now)
    {
      if id in rows {
        var j := rows[id];
        if j.leaseToken == Some(token) && j.status == Running {
          rows := rows[id := j.(leaseUntil := Some(now + LEASE))];
        }
      }
    }

    method Finish(id: Id, token: Id, o: Outcome, claimedAttempts: nat, now: int)
      modifies this
      ensures rows == Finished(old(rows), id, token, o, claimedAttempts, now)
    {
      var status, code, attempts := Succeeded, "", claimedAttempts;
      if o != Done {
        status := Queued;
        code := "upstream_or_validation_failed";
        if o == Missing {
          code := "target_not_found";
          attempts := 3;
        }
        if o == Conflict {
          code := "configuration_changed";
        }
        if attempts >= MAX_ATTEMPTS {
          status := Failed;
        }
      }
      if id in rows && rows[id].leaseToken == Some(token) {
        var finished := if status == Succeeded || status == Failed then Some(now) else None;
        rows := rows[id := rows[id].(status := status, error := code,
                                     availableAt := now + attempts * attempts * 15 * SECOND,
                                     leaseUntil := None, leaseToken := None, finishedAt := finished)];
      }
    }
  }
}
