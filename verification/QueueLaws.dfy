/** What the statements on the job table mean row by row, and what a finished job has gone through. */
module QueueLaws {
  import opened Common
  import opened JobQueue
  import opened Workers

  /** Nothing but the row of id is touched. */
  ghost predicate OnlyRow(was: Rows, now: Rows, id: Id) {
    now.Keys == was.Keys + {id} && forall o | o in was && o != id :: now[o] == was[o]
  }

  /** The part of a row that no statement of a worker ever changes. */
  predicate SameJob(a: Job, b: Job) { a.kind == b.kind && a.target == b.target && a.createdAt == b.createdAt }

  ghost predicate TargetBusy(rows: Rows, kind: string, target: string) {
    exists o :: o in rows && rows[o].status in {Queued, Running} && rows[o].kind == kind && rows[o].target == target
  }

  /** A new job waits at once, unless the target has an active job: then nothing happens. */
  lemma InsertMeans(rows: Rows, id: Id, kind: string, target: string, now: int)
    requires id !in rows
    ensures var after := Inserted(rows, id, kind, target, now);
            if TargetBusy(rows, kind, target) then after == rows
            else
              && OnlyRow(rows, after, id)
              && var j := after[id];
                 && j.kind == kind && j.target == target && j.status == Queued && j.attempts == 0
                 && j.availableAt == j.createdAt == now && j.leaseToken == None && j.leaseUntil == None
                 && j.error == "" && j.finishedAt == None
  {
    assert TargetBusy(rows, kind, target) <==> HasActive(rows, kind, target);
  }

  /** A job is retried iff it has failed and nothing else is active for its target; it then starts from nothing. */
  lemma RetryMeans(rows: Rows, id: Id, now: int)
    ensures Retried(rows, id, now).Ok? <==>
              id in rows && rows[id].status == Failed && !TargetBusy(rows, rows[id].kind, rows[id].target)
    ensures Retried(rows, id, now).Ok? ==>
      && OnlyRow(rows, Retried(rows, id, now).value, id)
      && var j := Retried(rows, id, now).value[id];
         && SameJob(rows[id], j) && j.status == Queued && j.attempts == 0 && j.availableAt == now
         && j.error == "" && j.finishedAt == None
  {
    if id in rows {
      assert TargetBusy(rows, rows[id].kind, rows[id].target) <==> HasActive(rows, rows[id].kind, rows[id].target);
    }
  }

  /** Exactly the running jobs whose lease has run out are taken back: queued again, or failed
      when they had three attempts. */
  lemma ReclaimMeans(rows: Rows, now: int, id: Id)
    requires id in rows
    ensures Reclaimed(rows, now).Keys == rows.Keys
    ensures var j, r := rows[id], Reclaimed(rows, now)[id];
            if j.status == Running && j.leaseUntil.Some? && j.leaseUntil.value < now then
              && SameJob(j, r) && r.attempts == j.attempts && r.availableAt == j.availableAt
              && r.status == (if j.attempts >= 3 then Failed else Queued)
              && r.leaseToken == None && r.leaseUntil == None && r.error != ""
            else r == j
  {
  }

  /** The job that a poll takes has waited longest among those that are due; claiming leases it for two minutes. */
  lemma ClaimMeans(rows: Rows, now: int, id: Id, token: Id)
    requires IsNext(rows, now, id)
    ensures forall o | o in rows && rows[o].status == Queued && rows[o].availableAt <= now ::
              || rows[id].availableAt < rows[o].availableAt
              || (rows[id].availableAt == rows[o].availableAt && rows[id].createdAt <= rows[o].createdAt)
    ensures rows[id].status == Queued && rows[id].availableAt <= now
    ensures OnlyRow(rows, Claimed(rows, id, token, now), id)
    ensures var j := Claimed(rows, id, token, now)[id];
            && SameJob(rows[id], j) && j.status == Running && j.attempts == rows[id].attempts + 1
            && j.leaseToken == Some(token) && j.leaseUntil == Some(now + 120_000_000)
  {
    forall o | o in rows && rows[o].status == Queued && rows[o].availableAt <= now ensures Before(rows[id], rows[o]) {
      assert Claimable(rows, now, o);
    }
  }

  /** A heartbeat gives a running job two more minutes when it carries the job's lease, and is nothing otherwise. */
  lemma RenewMeans(rows: Rows, id: Id, token: Id, now: int)
    ensures var after := Renewed(rows, id, token, now);
            if id in rows && rows[id].status == Running && rows[id].leaseToken == Some(token) then
              && OnlyRow(rows, after, id)
              && after[id].leaseUntil == Some(now + 120_000_000)
              && after[id].(leaseUntil := None) == rows[id].(leaseUntil := None)
            else after == rows
  {
  }

  /** A job that ended well has succeeded. One that did not has failed when its target is gone or it had three attempts,
      and otherwise waits 15 seconds times the square of its attempts. */
  lemma FinishMeans(rows: Rows, id: Id, token: Id, o: Outcome, attempts: nat, now: int)
    requires id in rows && rows[id].leaseToken == Some(token)
    ensures var after := Finished(rows, id, token, o, attempts, now);
            && OnlyRow(rows, after, id)
            && var j := after[id];
               && SameJob(rows[id], j) && j.attempts == rows[id].attempts && j.leaseToken == None
               && j.leaseUntil == None
               && (j.status == Succeeded <==> o == Done)
               && (j.status == Failed <==> o != Done && (o == Missing || attempts >= 3))
               && (j.status == Queued <==> o != Done && o != Missing && attempts < 3)
               && (j.error == "" <==> o == Done)
               && (j.status == Queued ==>
                     j.availableAt == now + 15_000_000 * (attempts * attempts) && j.finishedAt == None)
               && (j.status != Queued ==> j.finishedAt == Some(now))
  {
    if o != Done && o != Missing && attempts < 3 {
      Square(attempts, now);
    }
  }

  lemma Square(n: nat, now: int)
    ensures now + n * n * 15 * SECOND == now + 15_000_000 * (n * n)
  {
  }

  // ---- the life of a job ----

  /** The statement of this event ends the job as done. */
  predicate EndsWell(w: World, e: Event, id: Id) {
    || (e.Finish? && WorkerAt(w, e.k).Finishing? && w.workers[e.k].id == id && w.workers[e.k].outcome == Done)
    || (e.Arrive? && e.m.id == id && e.m.outcome == Done)
  }

  predicate Succeeds(rows: Rows, id: Id) { id in rows && rows[id].status == Succeeded }

  lemma SucceedsByDone(w: World, e: Event, id: Id)
    requires Inv(w) && Enabled(w, e) && Succeeds(Apply(w, e).rows, id) && !Succeeds(w.rows, id)
    ensures EndsWell(w, e, id)
  {
    match e
    case Finish(k) =>
      var f := w.workers[k];
      if Holds(w.rows, f.id, f.token) { FinishMeans(w.rows, f.id, f.token, f.outcome, f.attempts, w.now); }
    case Arrive(m, at) =>
      if Holds(w.rows, m.id, m.token) { FinishMeans(w.rows, m.id, m.token, m.outcome, m.attempts, at); }
    case _ =>
  }

  lemma SucceededStep(w: World, e: Event, id: Id)
    requires Inv(w) && Enabled(w, e) && Succeeds(w.rows, id)
    ensures id in Apply(w, e).rows && Apply(w, e).rows[id] == w.rows[id]
    ensures !(e.Take? && e.id == id) && !(e.Retry? && e.id == id)
  {
    assert JobOk(w.rows[id]);
  }

  lemma SucceededAt(ws: seq<World>, es: seq<Event>, i: nat, id: Id)
    requires IsRun(ws, es) && Initial(ws[0]) && i < |es| && Succeeds(ws[i].rows, id)
    ensures id in ws[i + 1].rows && ws[i + 1].rows[id] == ws[i].rows[id]
    ensures !(es[i].Take? && es[i].id == id) && !(es[i].Retry? && es[i].id == id)
  {
    InvInRun(ws, es, i);
    SucceededStep(ws[i], es[i], id);
  }

  lemma {:induction false} SucceededStays(ws: seq<World>, es: seq<Event>, i: nat, j: nat, id: Id)
    requires IsRun(ws, es) && Initial(ws[0]) && i <= j < |ws| && Succeeds(ws[i].rows, id)
    ensures id in ws[j].rows && ws[j].rows[id] == ws[i].rows[id]
    decreases j
  {
    if i < j {
      SucceededStays(ws, es, i, j - 1, id);
      SucceededAt(ws, es, j - 1, id);
    }
  }

  /** What has succeeded stays as it is: it is never claimed, retried, reclaimed or ended again. */
  lemma SucceededForever(ws: seq<World>, es: seq<Event>, i: nat, j: nat, id: Id)
    requires IsRun(ws, es) && Initial(ws[0]) && i <= j < |ws| && Succeeds(ws[i].rows, id)
    ensures id in ws[j].rows && ws[j].rows[id] == ws[i].rows[id]
    ensures j < |es| ==> !(es[j].Take? && es[j].id == id) && !(es[j].Retry? && es[j].id == id)
  {
    SucceededStays(ws, es, i, j, id);
    if j < |es| {
      SucceededAt(ws, es, j, id);
    }
  }

  /** The body of a job ended so on some worker. */
  predicate BodyEnded(w: World, e: Event, id: Id, o: Outcome) {
    e.BodyEnds? && e.outcome == o && WorkerAt(w, e.k).Working? && w.workers[e.k].id == id
  }

  ghost predicate EndedBefore(ws: seq<World>, es: seq<Event>, i: nat, id: Id, o: Outcome)
    requires i <= |es| && |ws| == |es| + 1
  {
    exists j | 0 <= j < i :: BodyEnded(ws[j], es[j], id, o)
  }

  /** A worker that finishes, and a finish statement under way, report how a body really ended. */
  ghost predicate Reports(w: World, id: Id, o: Outcome) {
    || (exists k | k in w.workers :: w.workers[k].Finishing? && w.workers[k].id == id && w.workers[k].outcome == o)
    || (exists m | m in w.late :: m.id == id && m.outcome == o)
  }

  lemma ReportsStep(w: World, e: Event, id: Id, o: Outcome)
    requires Enabled(w, e) && Reports(Apply(w, e), id, o)
    ensures Reports(w, id, o) || BodyEnded(w, e, id, o)
  {
    var now := Apply(w, e);
    if k :| k in now.workers && now.workers[k].Finishing? && now.workers[k].id == id && now.workers[k].outcome == o {
      if k in w.workers && w.workers[k] == now.workers[k] {
        assert Reports(w, id, o);
      }
    } else {
      var m :| m in now.late && m.id == id && m.outcome == o;
      if m !in w.late {
        assert (e.Abandon? || e.Crash?) && w.workers[e.k].Finishing?;
        assert w.workers[e.k].id == id && w.workers[e.k].outcome == o;
      }
    }
  }

  lemma {:induction false} ReportsAreTrue(ws: seq<World>, es: seq<Event>, i: nat, id: Id, o: Outcome)
    requires IsRun(ws, es) && Initial(ws[0]) && i < |ws| && Reports(ws[i], id, o)
    ensures EndedBefore(ws, es, i, id, o)
  {
    if i > 0 {
      ReportsStep(ws[i - 1], es[i - 1], id, o);
      if Reports(ws[i - 1], id, o) {
        ReportsAreTrue(ws, es, i - 1, id, o);
      }
    }
  }

  /** A job has succeeded only when a worker ran its body to a good end. */
  lemma {:induction false} SucceededWasDone(ws: seq<World>, es: seq<Event>, i: nat, id: Id)
    requires IsRun(ws, es) && Initial(ws[0]) && i < |ws| && Succeeds(ws[i].rows, id)
    ensures EndedBefore(ws, es, i, id, Done)
  {
    if i > 0 {
      if Succeeds(ws[i - 1].rows, id) {
        SucceededWasDone(ws, es, i - 1, id);
      } else {
        InvInRun(ws, es, i - 1);
        SucceedsByDone(ws[i - 1], es[i - 1], id);
        assert Reports(ws[i - 1], id, Done);
        ReportsAreTrue(ws, es, i - 1, id, Done);
      }
    }
  }

  predicate FailsEarly(rows: Rows, id: Id) { id in rows && rows[id].status == Failed && rows[id].attempts < 3 }

  lemma FailsByMissing(w: World, e: Event, id: Id)
    requires Inv(w) && Enabled(w, e) && FailsEarly(Apply(w, e).rows, id) && !FailsEarly(w.rows, id)
    ensures Reports(w, id, Missing)
  {
    match e
    case Finish(k) =>
      var f := w.workers[k];
      assert BusyOk(w, f);
      FinishMeans(w.rows, f.id, f.token, f.outcome, f.attempts, w.now);
    case Arrive(m, at) =>
      if Holds(w.rows, m.id, m.token) { FinishMeans(w.rows, m.id, m.token, m.outcome, m.attempts, at); }
    case _ =>
  }

  /** A job fails only after three attempts, or because a body found its target missing. */
  lemma {:induction false} FailedForAReason(ws: seq<World>, es: seq<Event>, i: nat, id: Id)
    requires IsRun(ws, es) && Initial(ws[0]) && i < |ws| && id in ws[i].rows && ws[i].rows[id].status == Failed
    ensures ws[i].rows[id].attempts >= 3 || EndedBefore(ws, es, i, id, Missing)
  {
    if i > 0 && FailsEarly(ws[i].rows, id) {
      if FailsEarly(ws[i - 1].rows, id) {
        FailedForAReason(ws, es, i - 1, id);
      } else {
        InvInRun(ws, es, i - 1);
        FailsByMissing(ws[i - 1], es[i - 1], id);
        ReportsAreTrue(ws, es, i - 1, id, Missing);
      }
    }
  }
}
