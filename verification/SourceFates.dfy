/** What becomes of a source over a run: how content goes live, and how probes make and mend its health. */
module SourceFates {
  import opened Common
  import opened Model
  import opened Difference
  import opened Sources
  import opened SourceRuns
  import opened SourceLaws

  // ---- content goes live ----

  /** The fetched content that this event commits for the source, when it commits any. */
  predicate Fetches(env: Env, w: World, e: Event, id: Id) {
    e.Commit? && e.o in w.ops && w.ops[e.o].id == id && CommitsFetch(env, w.ops[e.o])
  }

  /** Content unknown to the source, good enough to go live by itself, has gone live. */
  ghost predicate GoesLive(env: Env, w: World, now: DB, e: Event, id: Id)
    requires id in w.db.sources
  {
    && Fetches(env, w, e, id)
    && var f := FetchOf(env, w.ops[e.o]);
       f.hash != "" && !Seen(w.db, id, f.hash) && MayGoLive(w.db, env, id, f) && WentLive(w.db, now, id, f, e.revId)
  }

  lemma FetchDecides(env: Env, w: World, e: Event, id: Id)
    requires Enabled(env, w, e) && Fetches(env, w, e, id) && Tx(env, w, e).Ok?
    ensures id in w.db.sources
    ensures var f, now := FetchOf(env, w.ops[e.o]), Apply(env, w, e).db;
            if f.hash == "" || Seen(w.db, id, f.hash) then BroughtNothing(w.db, now, id)
            else if MayGoLive(w.db, env, id, f) then WentLive(w.db, now, id, f, e.revId)
            else WasStaged(w.db, now, id, f, e.revId)
  {
    var op := w.ops[e.o];
    SyncDecides(w.db, env, id, op.src.updatedAt, FetchOf(env, op), e.revId, e.now, e.stamp);
  }

  /** What is in use changes only when an operator approves or rolls back, and then to the revision meant, or when
      fetched content goes live that was sampled with success, is close to what was in use, and is new to the source. */
  lemma ActiveChanges(env: Env, w: World, e: Event, id: Id)
    requires Enabled(env, w, e) && id in w.db.sources && id in Apply(env, w, e).db.sources
    requires Apply(env, w, e).db.sources[id].active != w.db.sources[id].active
    ensures || (&& e.Act? && e.id == id && (e.a == Approve || e.a == ApproveEnable || e.a == Rollback)
                && Apply(env, w, e).db.sources[id].active == Meant(w.db.sources[id], e.revision))
            || GoesLive(env, w, Apply(env, w, e).db, e, id)
  {
    ActiveStep(env, w, e, id);
    if e.Act? {
      ApprovalMeans(w.db, id, e.a, e.revision, e.stamp);
    } else {
      FetchDecides(env, w, e, id);
    }
  }

  // ---- health over a run ----

  /** The outcome that a commit of this operation records, if any. A failed fetch or parse is a failed probe. */
  function OutcomeOf(env: Env, op: Op): Option<Probe>
    requires Complete(env, op)
  {
    match op
    case SyncOp(id, src, c, s) =>
      if PlanSync(env, id, src, c.value, s.value).Ready? then None else Some(Probe(false, false))
    case ProbeOp(id, src, content, credentials) =>
      Some(env.sample(id, src.protocol, src.url, src.settings, credentials.value, content.value))
    case StageOp(_, _, _, _) => None
  }

  predicate Probed(env: Env, w: World, e: Event, id: Id, p: Probe)
    requires Enabled(env, w, e)
  {
    e.Commit? && w.ops[e.o].id == id && OutcomeOf(env, w.ops[e.o]) == Some(p) && Tx(env, w, e).Ok?
  }

  /** A step that is about another source, or a tick, or only reads. */
  predicate Elsewhere(w: World, e: Event, id: Id) {
    match e
    case Admit(o, _, _, _, _, _, _) => o != id
    case EditTx(o, _, _) => o != id
    case Rekey(o, _, _) => o != id
    case Act(o, _, _, _) => o != id
    case SoftDelete(o, _) => o != id
    case Undo(o, _) => o != id
    case Delete(o) => o != id
    case Commit(o, _, _, _) => o in w.ops ==> w.ops[o].id != id
    case _ => true
  }

  lemma ElsewhereKeeps(env: Env, w: World, e: Event, id: Id)
    requires Enabled(env, w, e) && Elsewhere(w, e, id) && id in w.db.sources
    ensures id in Apply(env, w, e).db.sources && SameHealth(w.db.sources[id], Apply(env, w, e).db.sources[id])
  {
    if Tx(env, w, e).Ok? {
      match e
      case Act(o, a, revision, stamp) => ActHasShape(w.db, o, a, revision, stamp);
      case Commit(o, revId, now, stamp) => CommitHasShape(env, w.db, w.ops[o], revId, now, stamp);
      case EditTx(o, ed, stamp) => EditMeans(w.db, env, o, ed, stamp);
      case Tick(now) => SyncSchedule(w.db.sources[id], now);
      case _ =>
    }
  }

  predicate Unheld(v: Source) { v.health != Quarantined && v.health != Health.Disabled }

  /** How an unheld source stands after so many failures in a row, the last of them at now. */
  predicate StandsAt(v: Source, failures: nat) {
    && v.failures == failures
    && (failures == 1 ==> v.health == Degraded && v.score == 40)
    && (failures == 2 ==> v.health == Failing && v.score == 20)
    && (failures >= 3 ==> v.health == Avoid && v.score == 0)
  }

  lemma FailureStep(env: Env, w: World, e: Event, id: Id, p: Probe)
    requires Enabled(env, w, e) && Probed(env, w, e, id, p) && !p.success
    ensures id in w.db.sources && id in Apply(env, w, e).db.sources
    ensures var v, u := w.db.sources[id], Apply(env, w, e).db.sources[id];
            && u.failures == v.failures + 1
            && (Unheld(v) ==> Unheld(u) && StandsAt(u, v.failures + 1))
            && (Unheld(v) && v.failures >= 2 ==> u.nextProbe == e.now + 1800)
            && (!Unheld(v) ==> u.health == v.health && u.score == v.score)
  {
    ProbeFails(w.db, id, w.ops[e.o].src, p, e.now, e.stamp);
  }

  lemma SuccessStep(env: Env, w: World, e: Event, id: Id, p: Probe)
    requires Enabled(env, w, e) && Probed(env, w, e, id, p) && p.success
    ensures id in w.db.sources && id in Apply(env, w, e).db.sources
    ensures var v, u := w.db.sources[id], Apply(env, w, e).db.sources[id];
            && u.failures == 0
            && (Unheld(v) && p.functional ==> u.health == Healthy && u.score == 100)
            && (Unheld(v) && !p.functional ==> u.health == Degraded && u.score == 60)
            && (!Unheld(v) ==> u.health == v.health && u.score == v.score)
  {
    ProbeSucceeds(w.db, id, w.ops[e.o].src, p, e.now, e.stamp);
  }

  ghost predicate Fails(env: Env, w: World, e: Event, id: Id)
    requires Enabled(env, w, e)
  {
    exists p :: Probed(env, w, e, id, p) && !p.success
  }

  /** From i to j nothing happens to the source but failed probes. */
  ghost predicate OnlyFailures(env: Env, ws: seq<World>, es: seq<Event>, i: nat, j: nat, id: Id)
    requires SourceRuns.IsRun(env, ws, es) && j <= |es|
  {
    forall k | i <= k < j :: Elsewhere(ws[k], es[k], id) || Fails(env, ws[k], es[k], id)
  }

  ghost function FailureCount(env: Env, ws: seq<World>, es: seq<Event>, i: nat, j: nat, id: Id): nat
    requires SourceRuns.IsRun(env, ws, es) && i <= j <= |es|
    decreases j
  {
    if i == j then 0
    else FailureCount(env, ws, es, i, j - 1, id) + if Fails(env, ws[j - 1], es[j - 1], id) then 1 else 0
  }

  /** The row is unheld, and has failed n times since it was as v. */
  predicate Failed(v: Source, u: Source, n: nat) {
    Unheld(u) && if n == 0 then SameHealth(v, u) else StandsAt(u, v.failures + n)
  }

  lemma FailedNext(env: Env, w: World, e: Event, id: Id, v: Source, n: nat)
    requires Enabled(env, w, e) && id in w.db.sources && Failed(v, w.db.sources[id], n)
    requires Elsewhere(w, e, id) || Fails(env, w, e, id)
    ensures id in Apply(env, w, e).db.sources
    ensures Failed(v, Apply(env, w, e).db.sources[id], n + if Fails(env, w, e, id) then 1 else 0)
  {
    if Fails(env, w, e, id) {
      var p :| Probed(env, w, e, id, p) && !p.success;
      FailureStep(env, w, e, id, p);
    } else {
      ElsewhereKeeps(env, w, e, id);
    }
  }

  /** Failures add up, and health follows their number, however the failed probes of the source and everything that
      concerns other sources interleave. */
  lemma {:induction false} FailuresAddUp(env: Env, ws: seq<World>, es: seq<Event>, i: nat, j: nat, id: Id)
    requires SourceRuns.IsRun(env, ws, es) && i <= j <= |es| && OnlyFailures(env, ws, es, i, j, id)
    requires id in ws[i].db.sources && Unheld(ws[i].db.sources[id])
    ensures id in ws[j].db.sources
    ensures Failed(ws[i].db.sources[id], ws[j].db.sources[id], FailureCount(env, ws, es, i, j, id))
    decreases j
  {
    if i < j {
      FailuresAddUp(env, ws, es, i, j - 1, id);
      FailedNext(env, ws[j - 1], es[j - 1], id, ws[i].db.sources[id], FailureCount(env, ws, es, i, j - 1, id));
    }
  }

  /** Three failed probes in a row, the last one just now, leave an unheld source avoided for half an hour. */
  lemma ThreeFailuresAvoid(env: Env, ws: seq<World>, es: seq<Event>, i: nat, j: nat, id: Id)
    requires SourceRuns.IsRun(env, ws, es) && i < j <= |es| && OnlyFailures(env, ws, es, i, j, id)
    requires id in ws[i].db.sources && Unheld(ws[i].db.sources[id])
    requires Fails(env, ws[j - 1], es[j - 1], id) && FailureCount(env, ws, es, i, j, id) >= 3
    ensures id in ws[j].db.sources
    ensures var u := ws[j].db.sources[id];
            u.health == Avoid && u.score == 0 && u.failures >= 3 && u.nextProbe == es[j - 1].now + 1800
  {
    FailuresAddUp(env, ws, es, i, j - 1, id);
    FailuresAddUp(env, ws, es, i, j, id);
    var p :| Probed(env, ws[j - 1], es[j - 1], id, p) && !p.success;
    FailureStep(env, ws[j - 1], es[j - 1], id, p);
  }

  /** One functional success makes an unheld source healthy, whatever it had been through, and it stays so while nothing
      happens to it. */
  lemma {:induction false} OneSuccessHeals(env: Env, ws: seq<World>, es: seq<Event>, i: nat, j: nat, id: Id)
    requires SourceRuns.IsRun(env, ws, es) && i < j <= |es| && Probed(env, ws[i], es[i], id, Probe(true, true))
    requires id in ws[i].db.sources && Unheld(ws[i].db.sources[id])
    requires forall k | i < k < j :: Elsewhere(ws[k], es[k], id)
    ensures id in ws[j].db.sources
    ensures var u := ws[j].db.sources[id]; u.health == Healthy && u.score == 100 && u.failures == 0
    decreases j
  {
    if j == i + 1 {
      SuccessStep(env, ws[i], es[i], id, Probe(true, true));
    } else {
      OneSuccessHeals(env, ws, es, i, j - 1, id);
      ElsewhereKeeps(env, ws[j - 1], es[j - 1], id);
    }
  }
}
