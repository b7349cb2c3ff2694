/** Workers, crashes and late statements around the job table: runs of the whole queue protocol. */
module Workers {
  import opened Common
  import opened JobQueue

  // A transaction's now() is its begin time, which may lie before its commit. Every other statement
  // below carries the time it began as well.

  datatype Worker =
    | Idle
    | Started(started: int)
    | Polling(started: int, began: int)
    | Working(started: int, began: int, id: Id, token: Id, attempts: nat)
    | Finishing(since: int, began: int, id: Id, token: Id, attempts: nat, outcome: Outcome)
  {
    predicate Busy() { Working? || Finishing? }
  }

  /** A finish statement that outlived its worker and may still reach the database. */
  datatype Late = Late(id: Id, token: Id, attempts: nat, outcome: Outcome)

  datatype Grant = Grant(began: int, id: Id, attempts: nat)

  datatype World = World(now: int, rows: Rows, workers: map<nat, Worker>, late: set<Late>, grants: map<Id, Grant>)

  datatype Event =
    | Tick(d: int)
    | Insert(id: Id, kind: string, target: string, at: int)
    | Retry(id: Id, at: int)
    | Start(k: nat)
    | Begin(k: nat)
    | Take(k: nat, token: Id, id: Id)   // a poll that claims id
    | Nothing(k: nat)                   // a poll that claims nothing, or whose transaction failed
    | Beat(token: Id, id: Id, at: int)
    | BodyEnds(k: nat, outcome: Outcome)
    | Finish(k: nat)
    | Abandon(k: nat)                   // the finish statement timed out; it may still arrive
    | Arrive(m: Late, at: int)
    | Crash(k: nat)

  function WorkerAt(w: World, k: nat): Worker { if k in w.workers then w.workers[k] else Idle }

  /** The deadlines the contexts of work impose: 95 s for the body counted from the start, 5 s for the finish. */
  predicate InTime(x: Worker, now: int) {
    match x
    case Working(started, _, _, _, _) => now <= started + BODY_LIMIT
    case Finishing(since, _, _, _, _, _) => now <= since + FINISH_LIMIT
    case _ => true
  }

  ghost predicate Enabled(w: World, e: Event) {
    match e
    case Tick(d) => 0 <= d && forall k | k in w.workers :: InTime(w.workers[k], w.now + d)
    case Insert(id, _, _, at) => id !in w.rows && at <= w.now
    case Retry(id, at) => at <= w.now && Retried(w.rows, id, at).Ok?
    case Start(k) => WorkerAt(w, k).Idle?
    case Begin(k) => WorkerAt(w, k).Started?
    case Take(k, token, id) =>
      && WorkerAt(w, k).Polling?
      && w.now <= w.workers[k].started + BODY_LIMIT
      && token !in w.grants
      && IsNext(Reclaimed(w.rows, w.workers[k].began), w.workers[k].began, id)
    case Nothing(k) => WorkerAt(w, k).Polling?
    case Beat(token, id, at) => token in w.grants && w.grants[token].id == id && w.grants[token].began <= at <= w.now
    case BodyEnds(k, _) => WorkerAt(w, k).Working?
    case Finish(k) => WorkerAt(w, k).Finishing?
    case Abandon(k) => WorkerAt(w, k).Finishing?
    case Arrive(m, at) => m in w.late && at <= w.now
    case Crash(k) => !WorkerAt(w, k).Idle?
  }

  /** The requeue time of a finish is measured from the time its statement began; any time up to now may be used. */
  function Apply(w: World, e: Event): World
    requires Enabled(w, e)
  {
    match e
    case Tick(d) => w.(now := w.now + d)
    case Insert(id, kind, target, at) => w.(rows := Inserted(w.rows, id, kind, target, at))
    case Retry(id, at) => w.(rows := Retried(w.rows, id, at).value)
    case Start(k) => w.(workers := w.workers[k := Started(w.now)])
    case Begin(k) => w.(workers := w.workers[k := Polling(w.workers[k].started, w.now)])
    case Take(k, token, id) =>
      var p := w.workers[k];
      var rows := Claimed(Reclaimed(w.rows, p.began), id, token, p.began);
      w.(rows := rows,
         workers := w.workers[k := Working(p.started, p.began, id, token, rows[id].attempts)],
         grants := w.grants[token := Grant(p.began, id, rows[id].attempts)])
    case Nothing(k) => w.(workers := w.workers[k := Idle])
    case Beat(token, id, at) => w.(rows := Renewed(w.rows, id, token, at))
    case BodyEnds(k, o) =>
      var b := w.workers[k];
      w.(workers := w.workers[k := Finishing(w.now, b.began, b.id, b.token, b.attempts, o)])
    case Finish(k) =>
      var f := w.workers[k];
      w.(rows := Finished(w.rows, f.id, f.token, f.outcome, f.attempts, w.now), workers := w.workers[k := Idle])
    case Abandon(k) =>
      var f := w.workers[k];
      w.(workers := w.workers[k := Idle], late := w.late + {Late(f.id, f.token, f.attempts, f.outcome)})
    case Arrive(m, at) =>
      w.(rows := Finished(w.rows, m.id, m.token, m.outcome, m.attempts, at), late := w.late - {m})
    case Crash(k) =>
      var x := w.workers[k];
      w.(workers := w.workers[k := Idle],
         late := if x.Finishing? then w.late + {Late(x.id, x.token, x.attempts, x.outcome)} else w.late)
  }

  ghost predicate IsRun(ws: seq<World>, es: seq<Event>) {
    && |ws| == |es| + 1
    && forall i | 0 <= i < |es| :: Enabled(ws[i], es[i]) && ws[i + 1] == Apply(ws[i], es[i])
  }

  ghost predicate Initial(w: World) {
    w.rows == map[] && w.workers == map[] && w.late == {} && w.grants == map[]
  }

  // ---- the queue invariant ----

  predicate JobOk(j: Job) {
    && (j.status == Running <==> j.leaseToken.Some?)
    && (j.status == Running <==> j.leaseUntil.Some?)
    && (j.status == Queued ==> j.attempts <= MAX_ATTEMPTS - 1)
    && (j.status == Running ==> 1 <= j.attempts <= MAX_ATTEMPTS)
  }

  ghost predicate OneActivePerTarget(rows: Rows) {
    forall a, b | a in rows && b in rows && a != b && rows[a].Active() && rows[b].Active() ::
      rows[a].kind != rows[b].kind || rows[a].target != rows[b].target
  }

  ghost predicate QueueOk(rows: Rows) {
    (forall id | id in rows :: JobOk(rows[id])) && OneActivePerTarget(rows)
  }

  /** Every lease in the table is the one that was granted, at least 120 s after the claiming transaction began. */
  ghost predicate LeasesGranted(w: World) {
    forall id | id in w.rows && w.rows[id].leaseToken.Some? ::
      var t := w.rows[id].leaseToken.value;
      && t in w.grants && w.grants[t].id == id && w.grants[t].attempts == w.rows[id].attempts
      && w.rows[id].leaseUntil.Some? && w.grants[t].began + LEASE <= w.rows[id].leaseUntil.value
  }

  ghost predicate LateOk(w: World) {
    forall m | m in w.late ::
        m.token in w.grants && w.grants[m.token].id == m.id && w.grants[m.token].attempts == m.attempts
  }

  /** A busy worker holds its job's lease, was granted it, and is inside its deadlines. */
  ghost predicate BusyOk(w: World, x: Worker)
    requires x.Busy()
  {
    && x.token in w.grants && w.grants[x.token] == Grant(x.began, x.id, x.attempts)
    && Holds(w.rows, x.id, x.token)
    && (forall m | m in w.late :: m.token != x.token)
    && InTime(x, w.now)
    && (x.Working? ==> x.started <= x.began <= w.now)
    && (x.Finishing? ==> x.since <= x.began + BODY_LIMIT && x.since <= w.now)
  }

  ghost predicate TokensDiffer(w: World) {
    forall k, l | k in w.workers && l in w.workers && k != l && w.workers[k].Busy() && w.workers[l].Busy() ::
      w.workers[k].token != w.workers[l].token
  }

  ghost predicate TimesInOrder(w: World) {
    && (forall k | k in w.workers && w.workers[k].Started? :: w.workers[k].started <= w.now)
    && (forall k | k in w.workers && w.workers[k].Polling? :: w.workers[k].started <= w.workers[k].began <= w.now)
  }

  ghost predicate WorkersOk(w: World) {
    (forall k | k in w.workers && w.workers[k].Busy() :: BusyOk(w, w.workers[k])) && TokensDiffer(w) && TimesInOrder(w)
  }

  ghost predicate Inv(w: World) {
    QueueOk(w.rows) && LeasesGranted(w) && LateOk(w) && WorkersOk(w)
  }

  // ---- each statement keeps the rows in order ----

  lemma InsertKeepsQueue(rows: Rows, id: Id, kind: string, target: string, now: int)
    requires QueueOk(rows) && id !in rows
    ensures QueueOk(Inserted(rows, id, kind, target, now))
  {
  }

  lemma RetryKeepsQueue(rows: Rows, id: Id, now: int)
    requires QueueOk(rows) && Retried(rows, id, now).Ok?
    ensures QueueOk(Retried(rows, id, now).value)
  {
  }

  lemma ReclaimKeepsQueue(rows: Rows, now: int)
    requires QueueOk(rows)
    ensures QueueOk(Reclaimed(rows, now))
  {
  }

  lemma ClaimKeepsQueue(rows: Rows, id: Id, token: Id, now: int)
    requires QueueOk(rows) && id in rows && rows[id].status == Queued
    ensures QueueOk(Claimed(rows, id, token, now))
  {
  }

  lemma FinishKeepsQueue(rows: Rows, id: Id, token: Id, o: Outcome, attempts: nat, now: int)
    requires QueueOk(rows) && (Holds(rows, id, token) ==> rows[id].attempts == attempts)
    ensures QueueOk(Finished(rows, id, token, o, attempts, now))
  {
  }

  lemma QueueKept(w: World, e: Event)
    requires Inv(w) && Enabled(w, e)
    ensures QueueOk(Apply(w, e).rows)
  {
    match e
    case Insert(id, kind, target, at) => InsertKeepsQueue(w.rows, id, kind, target, at);
    case Retry(id, at) => RetryKeepsQueue(w.rows, id, at);
    case Take(k, token, id) =>
      var began := w.workers[k].began;
      ReclaimKeepsQueue(w.rows, began);
      ClaimKeepsQueue(Reclaimed(w.rows, began), id, token, began);
    case Beat(token, id, at) =>
    case Finish(k) =>
      var f := w.workers[k];
      FinishKeepsQueue(w.rows, f.id, f.token, f.outcome, f.attempts, w.now);
    case Arrive(m, at) => FinishKeepsQueue(w.rows, m.id, m.token, m.outcome, m.attempts, at);
    case _ =>
  }

  lemma LeasesKept(w: World, e: Event)
    requires Inv(w) && Enabled(w, e)
    ensures LeasesGranted(Apply(w, e))
  {
  }

  lemma LateKept(w: World, e: Event)
    requires Inv(w) && Enabled(w, e)
    ensures LateOk(Apply(w, e))
  {
    if e.Abandon? || e.Crash? {
      assert w.workers[e.k].Finishing? ==> BusyOk(w, w.workers[e.k]);
    }
  }

  /** No transaction that has begun by now can reclaim a job whose worker is still inside its deadlines. */
  lemma BusyNotExpired(w: World, k: nat, began: int)
    requires Inv(w) && k in w.workers && w.workers[k].Busy() && began <= w.now
    ensures Holds(w.rows, w.workers[k].id, w.workers[k].token)
    ensures !Expired(w.rows[w.workers[k].id], began)
    ensures ReclaimJob(w.rows[w.workers[k].id], began) == w.rows[w.workers[k].id]
  {
    assert BusyOk(w, w.workers[k]);
  }

  /** A step keeps every busy worker that it does not itself move. */
  lemma OtherWorkerKept(w: World, e: Event, k: nat)
    requires Inv(w) && Enabled(w, e) && k in w.workers && w.workers[k].Busy()
    requires k in Apply(w, e).workers && Apply(w, e).workers[k] == w.workers[k]
    ensures BusyOk(Apply(w, e), w.workers[k])
  {
    var x := w.workers[k];
    assert BusyOk(w, x);
    match e
    case Take(l, token, id) => BusyNotExpired(w, k, w.workers[l].began);
    case _ =>
  }

  lemma MovedWorkerOk(w: World, e: Event, k: nat)
    requires Inv(w) && Enabled(w, e) && (e.Take? || e.BodyEnds?) && k == e.k
    ensures BusyOk(Apply(w, e), Apply(w, e).workers[k])
  {
    var x := w.workers[k];
    if e.BodyEnds? {
      assert BusyOk(w, x);
    }
  }

  lemma TokensKept(w: World, e: Event)
    requires Inv(w) && Enabled(w, e)
    ensures TokensDiffer(Apply(w, e)) && TimesInOrder(Apply(w, e))
  {
    var w' := Apply(w, e);
    forall k, l | k in w'.workers && l in w'.workers && k != l && w'.workers[k].Busy() && w'.workers[l].Busy()
      ensures w'.workers[k].token != w'.workers[l].token
    {
      if e.Take? {
        assert k != e.k ==> BusyOk(w, w.workers[k]);
        assert l != e.k ==> BusyOk(w, w.workers[l]);
      }
    }
  }

  lemma WorkersKept(w: World, e: Event)
    requires Inv(w) && Enabled(w, e)
    ensures WorkersOk(Apply(w, e))
  {
    TokensKept(w, e);
    var w' := Apply(w, e);
    forall k | k in w'.workers && w'.workers[k].Busy() ensures BusyOk(w', w'.workers[k]) {
      if k in w.workers && w'.workers[k] == w.workers[k] {
        OtherWorkerKept(w, e, k);
      } else {
        MovedWorkerOk(w, e, k);
      }
    }
  }

  lemma InvKept(w: World, e: Event)
    requires Inv(w) && Enabled(w, e)
    ensures Inv(Apply(w, e))
  {
    QueueKept(w, e);
    LeasesKept(w, e);
    LateKept(w, e);
    WorkersKept(w, e);
  }

  // ---- runs ----

  lemma {:induction false} InvInRun(ws: seq<World>, es: seq<Event>, i: nat)
    requires IsRun(ws, es) && Initial(ws[0]) && i < |ws|
    ensures Inv(ws[i])
  {
    if i > 0 {
      InvInRun(ws, es, i - 1);
      InvKept(ws[i - 1], es[i - 1]);
    }
  }

  /** No job is ever run by two live workers at once, however many heartbeats are lost or late. */
  lemma NoJobRunTwice(ws: seq<World>, es: seq<Event>, i: nat, k: nat, l: nat)
    requires IsRun(ws, es) && Initial(ws[0]) && i < |ws| && k != l
    requires WorkerAt(ws[i], k).Busy() && WorkerAt(ws[i], l).Busy()
    ensures ws[i].workers[k].id != ws[i].workers[l].id
  {
    InvInRun(ws, es, i);
    assert BusyOk(ws[i], ws[i].workers[k]) && BusyOk(ws[i], ws[i].workers[l]);
  }

  /** A row that some poll reclaims belongs to no live worker. */
  lemma ReclaimHitsOnlyTheDead(ws: seq<World>, es: seq<Event>, i: nat, began: int, id: Id, k: nat)
    requires IsRun(ws, es) && Initial(ws[0]) && i < |ws| && began <= ws[i].now
    requires id in ws[i].rows && ReclaimJob(ws[i].rows[id], began) != ws[i].rows[id]
    requires WorkerAt(ws[i], k).Busy()
    ensures ws[i].workers[k].id != id
  {
    InvInRun(ws, es, i);
    BusyNotExpired(ws[i], k, began);
  }

  ghost predicate Superseded(w: World, token: Id) {
    token in w.grants && forall id | id in w.rows :: w.rows[id].leaseToken != Some(token)
  }

  lemma SupersededStep(w: World, e: Event, token: Id)
    requires Inv(w) && Enabled(w, e) && Superseded(w, token)
    ensures Superseded(Apply(w, e), token)
  {
  }

  lemma {:induction false} SupersededForever(ws: seq<World>, es: seq<Event>, i: nat, j: nat, token: Id)
    requires IsRun(ws, es) && Initial(ws[0]) && i <= j < |ws| && Superseded(ws[i], token)
    ensures Superseded(ws[j], token)
    decreases j
  {
    if i < j {
      SupersededForever(ws, es, i, j - 1, token);
      InvInRun(ws, es, j - 1);
      SupersededStep(ws[j - 1], es[j - 1], token);
    }
  }

  /** From the moment a lease is lost, every finish or heartbeat that still carries its token
      leaves the table as it is. */
  lemma LostLeaseChangesNothing(ws: seq<World>, es: seq<Event>, i: nat, j: nat, token: Id)
    requires IsRun(ws, es) && Initial(ws[0]) && i <= j < |es| && Superseded(ws[i], token)
    ensures es[j].Beat? && es[j].token == token ==> ws[j + 1].rows == ws[j].rows
    ensures es[j].Arrive? && es[j].m.token == token ==> ws[j + 1].rows == ws[j].rows
  {
    SupersededForever(ws, es, i, j, token);
  }

  /** Once a live worker's lease is gone the worker is gone too: a busy worker's token is never superseded. */
  lemma BusyNeverSuperseded(ws: seq<World>, es: seq<Event>, i: nat, k: nat)
    requires IsRun(ws, es) && Initial(ws[0]) && i < |ws| && WorkerAt(ws[i], k).Busy()
    ensures !Superseded(ws[i], ws[i].workers[k].token)
  {
    InvInRun(ws, es, i);
    assert BusyOk(ws[i], ws[i].workers[k]);
  }

  // ---- how often a queue can still be claimed ----

  /** One credit for each attempt an active job still has: their number is the sum of 3 - attempts over active jobs. */
  function Credits(rows: Rows): set<(Id, int)> {
    set id, n | id in rows && rows[id].Active() && rows[id].attempts <= n < MAX_ATTEMPTS :: (id, n)
  }

  function CreditsOf(rows: Rows, id: Id): set<(Id, int)> {
    set c | c in Credits(rows) && c.0 == id
  }

  predicate AddsNoWork(e: Event) { !e.Insert? && !e.Retry? }

  function Takes(es: seq<Event>): nat {
    if es == [] then 0 else Takes(es[..|es| - 1]) + if es[|es| - 1].Take? then 1 else 0
  }

  function TakesOf(es: seq<Event>, id: Id): nat {
    if es == [] then 0
    else TakesOf(es[..|es| - 1], id) + if es[|es| - 1].Take? && es[|es| - 1].id == id then 1 else 0
  }

  lemma FinishSpends(rows: Rows, id: Id, token: Id, o: Outcome, attempts: nat, now: int)
    requires QueueOk(rows) && (Holds(rows, id, token) ==> rows[id].attempts == attempts)
    ensures Credits(Finished(rows, id, token, o, attempts, now)) <= Credits(rows)
  {
  }

  lemma TakeSpends(w: World, e: Event)
    requires Inv(w) && Enabled(w, e) && e.Take?
    ensures (e.id, w.rows[e.id].attempts as int) in Credits(w.rows)
    ensures Credits(Apply(w, e).rows) <= Credits(w.rows) - {(e.id, w.rows[e.id].attempts as int)}
  {
    var began := w.workers[e.k].began;
    var mid := Reclaimed(w.rows, began);
    ReclaimKeepsQueue(w.rows, began);
    assert Credits(mid) <= Credits(w.rows);
    assert mid[e.id].attempts == w.rows[e.id].attempts;
    assert (e.id, mid[e.id].attempts as int) in Credits(mid);
  }

  lemma StepSpends(w: World, e: Event)
    requires Inv(w) && Enabled(w, e) && AddsNoWork(e)
    ensures Credits(Apply(w, e).rows) <= Credits(w.rows)
  {
    match e
    case Take(_, _, _) => TakeSpends(w, e);
    case Finish(k) =>
      var f := w.workers[k];
      FinishSpends(w.rows, f.id, f.token, f.outcome, f.attempts, w.now);
    case Arrive(m, at) => FinishSpends(w.rows, m.id, m.token, m.outcome, m.attempts, at);
    case _ =>
  }

  /** Without new enqueues or retries, the remaining attempts bound the remaining claims. */
  lemma {:induction false} ClaimsAreBounded(ws: seq<World>, es: seq<Event>)
    requires IsRun(ws, es) && Inv(ws[0]) && forall e | e in es :: AddsNoWork(e)
    ensures Inv(ws[|es|])
    ensures Takes(es) + |Credits(ws[|es|].rows)| <= |Credits(ws[0].rows)|
  {
    if es != [] {
      var n := |es| - 1;
      var e := es[n];
      assert e in es;
      ClaimsAreBounded(ws[..n + 1], es[..n]);
      InvKept(ws[n], e);
      StepSpends(ws[n], e);
      if e.Take? {
        TakeSpends(ws[n], e);
      }
      SubsetSize(Credits(ws[n + 1].rows), Credits(ws[n].rows));
    }
  }

  lemma JobCredits(rows: Rows, id: Id)
    requires QueueOk(rows)
    ensures |CreditsOf(rows, id)| == if id in rows && rows[id].Active() then MAX_ATTEMPTS - rows[id].attempts else 0
  {
    var cs := CreditsOf(rows, id);
    if id in rows && rows[id].Active() {
      var n := rows[id].attempts;
      assert JobOk(rows[id]);
      var all: seq<(Id, int)> := [(id, 0), (id, 1), (id, 2)];
      assert cs == set c | c in all[n..];
      assert n == 3 ==> cs == {};
      assert n == 2 ==> cs == {all[2]};
      assert n == 1 ==> cs == {all[1], all[2]};
      assert n == 0 ==> cs == {all[0], all[1], all[2]};
    } else {
      assert cs == {};
    }
  }

  lemma JobStepSpends(w: World, e: Event, id: Id)
    requires Inv(w) && Enabled(w, e) && AddsNoWork(e)
    ensures |CreditsOf(Apply(w, e).rows, id)| + (if e.Take? && e.id == id then 1 else 0) <= |CreditsOf(w.rows, id)|
  {
    StepSpends(w, e);
    if e.Take? && e.id == id {
      TakeSpends(w, e);
      var c := (id, w.rows[id].attempts as int);
      assert CreditsOf(Apply(w, e).rows, id) <= CreditsOf(w.rows, id) - {c};
      SubsetSize(CreditsOf(Apply(w, e).rows, id), CreditsOf(w.rows, id) - {c});
    } else {
      SubsetSize(CreditsOf(Apply(w, e).rows, id), CreditsOf(w.rows, id));
    }
  }

  /** The same for one job: it is claimed at most 3 - attempts more times (JobCredits). */
  lemma {:induction false} ClaimsOfAJob(ws: seq<World>, es: seq<Event>, id: Id)
    requires IsRun(ws, es) && Inv(ws[0]) && forall e | e in es :: AddsNoWork(e)
    ensures Inv(ws[|es|])
    ensures TakesOf(es, id) + |CreditsOf(ws[|es|].rows, id)| <= |CreditsOf(ws[0].rows, id)|
  {
    if es != [] {
      var n := |es| - 1;
      assert es[n] in es;
      ClaimsOfAJob(ws[..n + 1], es[..n], id);
      InvKept(ws[n], es[n]);
      JobStepSpends(ws[n], es[n], id);
    }
  }
}
