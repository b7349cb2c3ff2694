/** gatedTransport of internal/fetch/fetch.go: two slots and a circuit breaker per route and host. */
module HostGate {
  const SLOTS := 2
  const MINUTE := 60

  /** until is 0 while the circuit is closed. */
  datatype Host = Host(slots: nat, failures: nat, until: int)

  /**
   * A round trip: waiting for a slot, on the wire, failed with its slot still taken, with an unread body, or over.
   * taken and given count its slot's moves.
   */
  datatype Phase = Waiting | Flying | Leaving | Reading | Over

  datatype Request = Request(key: string, phase: Phase, taken: nat, given: nat)

  datatype World = World(hosts: map<string, Host>, requests: map<nat, Request>)

  const START := World(map[], map[])

  /** The atomic steps: each is one critical section, or one operation on the slot channel. */
  datatype Event =
    | Enter(r: nat, key: string, now: int)
    | Acquire(r: nat)
    | GiveUp(r: nat)
    | Account(r: nat, error: bool, serverError: bool, now: int)
    | Release(r: nat)
    | Close(r: nat)

  // ---- the host ----

  function HostOf(w: World, key: string): Host { if key in w.hosts then w.hosts[key] else Host(0, 0, 0) }

  predicate Blocked(h: Host, now: int) { now < h.until }

  function Answered(h: Host, failed: bool, now: int): Host {
    if !failed then h.(failures := 0, until := 0)
    else h.(failures := h.failures + 1, until := if h.failures + 1 >= 3 then now + MINUTE else h.until)
  }

  // ---- the protocol ----

  predicate Enabled(w: World, e: Event) {
    match e
    case Enter(r, _, now) => r !in w.requests && now > 0
    case Acquire(r) => r in w.requests && w.requests[r].phase == Waiting && HostOf(w, w.requests[r].key).slots < SLOTS
    case GiveUp(r) => r in w.requests && w.requests[r].phase == Waiting
    case Account(r, _, _, now) => r in w.requests && w.requests[r].phase == Flying && now > 0
    case Release(r) => r in w.requests && w.requests[r].phase == Leaving
    case Close(r) => r in w.requests && (w.requests[r].phase == Reading || w.requests[r].phase == Over)
  }

  function Apply(w: World, e: Event): World
    requires Enabled(w, e)
  {
    match e
    case Enter(r, key, now) =>
      var h := HostOf(w, key);
      World(w.hosts[key := h], w.requests[r := Request(key, if Blocked(h, now) then Over else Waiting, 0, 0)])
    case Acquire(r) =>
      var q := w.requests[r];
      var h := HostOf(w, q.key);
      World(w.hosts[q.key := h.(slots := h.slots + 1)], w.requests[r := q.(phase := Flying, taken := q.taken + 1)])
    case GiveUp(r) => w.(requests := w.requests[r := w.requests[r].(phase := Over)])
    case Account(r, error, serverError, now) =>
      var q := w.requests[r];
      World(w.hosts[q.key := Answered(HostOf(w, q.key), error || serverError, now)],
            w.requests[r := q.(phase := if error then Leaving else Reading)])
    case Release(r) => GivenBack(w, r)
    case Close(r) => if w.requests[r].phase == Over then w else GivenBack(w, r)
  }

  function GivenBack(w: World, r: nat): World
    requires r in w.requests
  {
    var q := w.requests[r];
    var h := HostOf(w, q.key);
    World(w.hosts[q.key := h.(slots := Less(h.slots))], w.requests[r := q.(phase := Over, given := q.given + 1)])
  }

  /** Receiving from the slot channel. The channel is never empty here: SlotsAreHeld. */
  function Less(slots: nat): nat { if slots == 0 then 0 else slots - 1 }

  predicate IsRun(ws: seq<World>, es: seq<Event>) {
    && |ws| == |es| + 1 && ws[0] == START
    && forall i | 0 <= i < |es| :: Enabled(ws[i], es[i]) && ws[i + 1] == Apply(ws[i], es[i])
  }

  // ---- the invariant ----

  predicate Holding(q: Request) { q.phase == Flying || q.phase == Leaving || q.phase == Reading }

  function Holders(w: World, key: string): set<nat> {
    set r | r in w.requests && w.requests[r].key == key && Holding(w.requests[r])
  }

  ghost predicate RequestOk(w: World, r: nat)
    requires r in w.requests
  {
    var q := w.requests[r];
    && q.key in w.hosts
    && (q.phase == Waiting ==> q.taken == 0 && q.given == 0)
    && (Holding(q) ==> q.taken == 1 && q.given == 0)
    && (q.phase == Over ==> q.given == q.taken <= 1)
  }

  ghost predicate HostOk(w: World, key: string) {
    var h := HostOf(w, key);
    h.slots == |Holders(w, key)| <= SLOTS && (h.failures < 3 ==> h.until == 0)
  }

  ghost predicate Inv(w: World) {
    (forall r | r in w.requests :: RequestOk(w, r)) && forall key: string :: HostOk(w, key)
  }

  lemma SetMinus(s: set<nat>, r: nat)
    requires r in s
    ensures |s - {r}| == |s| - 1
  {
  }

  predicate Gives(w: World, e: Event)
    requires Enabled(w, e)
  {
    e.Release? || (e.Close? && w.requests[e.r].phase == Reading)
  }

  /** Only the request of the step moves, and only between its host's slots. */
  lemma HoldersAfter(w: World, e: Event, key: string)
    requires Enabled(w, e)
    ensures var was, now := Holders(w, key), Holders(Apply(w, e), key);
            if e.Acquire? && w.requests[e.r].key == key then now == was + {e.r} && e.r !in was
            else if Gives(w, e) && w.requests[e.r].key == key then now == was - {e.r} && e.r in was
            else now == was
  {
  }

  /** The host after the step, seen apart from the other hosts. */
  lemma HostAfter(w: World, e: Event, key: string)
    requires Enabled(w, e)
    ensures var was, now := HostOf(w, key), HostOf(Apply(w, e), key);
            && now.slots == (if e.Acquire? && w.requests[e.r].key == key then was.slots + 1
                             else if Gives(w, e) && w.requests[e.r].key == key then Less(was.slots)
                             else was.slots)
            && ((now.failures == was.failures && now.until == was.until)
                || now == was.(slots := now.slots, failures := 0, until := 0)
                || (e.Account? && now == Answered(was, true, e.now).(slots := now.slots)))
  {
  }

  lemma HostKept(w: World, e: Event, key: string)
    requires Inv(w) && Enabled(w, e)
    ensures HostOk(Apply(w, e), key)
  {
    assert HostOk(w, key);
    HoldersAfter(w, e, key);
    HostAfter(w, e, key);
    var was := Holders(w, key);
    if e.r in was {
      SetMinus(was, e.r);
    }
  }

  lemma InvKept(w: World, e: Event)
    requires Inv(w) && Enabled(w, e)
    ensures Inv(Apply(w, e))
  {
    forall key: string ensures HostOk(Apply(w, e), key) {
      HostKept(w, e, key);
    }
    forall r | r in Apply(w, e).requests ensures RequestOk(Apply(w, e), r) {
      assert r in w.requests ==> RequestOk(w, r);
    }
  }

  lemma {:induction false} InvInRun(ws: seq<World>, es: seq<Event>, i: nat)
    requires IsRun(ws, es) && i < |ws|
    ensures Inv(ws[i])
  {
    if i == 0 {
      forall key: string ensures HostOk(START, key) {
        assert Holders(START, key) == {};
      }
    } else {
      InvInRun(ws, es, i - 1);
      InvKept(ws[i - 1], es[i - 1]);
    }
  }

  /** In every run a host's held slots are exactly its requests between acquiring and
      releasing, and never more than two. */
  lemma SlotsAreHeld(ws: seq<World>, es: seq<Event>, i: nat, key: string)
    requires IsRun(ws, es) && i < |ws|
    ensures HostOf(ws[i], key).slots == |Holders(ws[i], key)| <= SLOTS
    ensures HostOf(ws[i], key).failures < 3 ==> HostOf(ws[i], key).until == 0
  {
    InvInRun(ws, es, i);
    assert HostOk(ws[i], key);
  }

  /** Every slot taken is given back at most once, however often the body is closed, and exactly
      once when the request is over. */
  lemma SlotsAreGivenBackOnce(ws: seq<World>, es: seq<Event>, i: nat, r: nat)
    requires IsRun(ws, es) && i < |ws| && r in ws[i].requests
    ensures var q := ws[i].requests[r]; q.given <= q.taken <= 1 && (q.phase == Over ==> q.given == q.taken)
  {
    InvInRun(ws, es, i);
    assert RequestOk(ws[i], r);
  }

  /** When every request is over, every slot is free again. */
  lemma NoSlotLeaks(ws: seq<World>, es: seq<Event>, i: nat, key: string)
    requires IsRun(ws, es) && i < |ws| && forall r | r in ws[i].requests :: ws[i].requests[r].phase == Over
    ensures HostOf(ws[i], key).slots == 0
  {
    SlotsAreHeld(ws, es, i, key);
    assert Holders(ws[i], key) == {};
  }

  /** Closing again changes nothing. */
  lemma CloseIsIdempotent(w: World, r: nat)
    requires Enabled(w, Close(r))
    ensures Enabled(Apply(w, Close(r)), Close(r)) && Apply(Apply(w, Close(r)), Close(r)) == Apply(w, Close(r))
  {
  }

  // ---- the circuit ----

  /** The step is the answer to a request to this host. */
  predicate Answers(w: World, e: Event, key: string) {
    e.Account? && e.r in w.requests && w.requests[e.r].key == key
  }

  predicate Fails(e: Event) { e.Account? && (e.error || e.serverError) }

  /** A failure counts, and from the third in a row on it opens the circuit for a minute; any other answer forgets the
      failures and closes it. Nothing but an answer from the host touches either. */
  lemma AnswerMeans(w: World, e: Event, key: string)
    requires Enabled(w, e)
    ensures var was, now := HostOf(w, key), HostOf(Apply(w, e), key);
            && (!Answers(w, e, key) ==> now.failures == was.failures && now.until == was.until)
            && (Answers(w, e, key) && Fails(e) ==>
                  && now.failures == was.failures + 1
                  && (was.failures >= 2 ==> now.until == e.now + 60)
                  && (was.failures < 2 ==> now.until == was.until))
            && (Answers(w, e, key) && !Fails(e) ==> now.failures == 0 && now.until == 0)
            && (e.Account? ==> now.slots == was.slots)
  {
  }

  /** A request to a host whose circuit is open is over at once and never held a slot; to any other it waits for one. */
  lemma EnterMeans(w: World, e: Event)
    requires Enabled(w, e) && e.Enter?
    ensures var after := Apply(w, e);
            && e.r in after.requests && after.requests[e.r].key == e.key && after.requests[e.r].taken == 0
            && (e.now < HostOf(w, e.key).until ==> after.requests[e.r].phase == Over)
            && (e.now >= HostOf(w, e.key).until ==> after.requests[e.r].phase == Waiting)
            && HostOf(after, e.key) == HostOf(w, e.key)
  {
  }

  ghost function FailureCount(ws: seq<World>, es: seq<Event>, key: string, i: nat, j: nat): nat
    requires i <= j <= |es| <= |ws|
    decreases j
  {
    if i == j then 0
    else FailureCount(ws, es, key, i, j - 1) + if Answers(ws[j - 1], es[j - 1], key) && Fails(es[j - 1]) then 1 else 0
  }

  lemma {:induction false} FailuresAddUp(ws: seq<World>, es: seq<Event>, key: string, i: nat, j: nat)
    requires IsRun(ws, es) && i <= j <= |es|
    requires forall k | i <= k < j :: Answers(ws[k], es[k], key) ==> Fails(es[k])
    ensures HostOf(ws[j], key).failures == HostOf(ws[i], key).failures + FailureCount(ws, es, key, i, j)
    decreases j
  {
    if i < j {
      FailuresAddUp(ws, es, key, i, j - 1);
      AnswerMeans(ws[j - 1], es[j - 1], key);
    }
  }

  lemma {:induction false} CircuitStays(ws: seq<World>, es: seq<Event>, key: string, i: nat, j: nat)
    requires IsRun(ws, es) && i <= j <= |es|
    requires forall k | i <= k < j :: !Answers(ws[k], es[k], key)
    ensures HostOf(ws[j], key).failures == HostOf(ws[i], key).failures
    ensures HostOf(ws[j], key).until == HostOf(ws[i], key).until
    decreases j
  {
    if i < j {
      CircuitStays(ws, es, key, i, j - 1);
      AnswerMeans(ws[j - 1], es[j - 1], key);
    }
  }

  /** In any run: once three answers of a host have failed, the last of them at step k, a request within the next minute
      is refused without a slot, until the host has answered again. */
  lemma ThirdFailureBlocks(ws: seq<World>, es: seq<Event>, key: string, i: nat, k: nat, j: nat)
    requires IsRun(ws, es) && i <= k < j < |es|
    requires forall n | i <= n <= k :: Answers(ws[n], es[n], key) ==> Fails(es[n])
    requires Answers(ws[k], es[k], key) && FailureCount(ws, es, key, i, k + 1) >= 3
    requires forall n | k < n < j :: !Answers(ws[n], es[n], key)
    requires es[j].Enter? && es[j].key == key && es[j].now < es[k].now + 60
    ensures ws[j + 1].requests[es[j].r].phase == Over && ws[j + 1].requests[es[j].r].taken == 0
    ensures HostOf(ws[j + 1], key).slots == HostOf(ws[j], key).slots
  {
    FailuresAddUp(ws, es, key, i, k);
    AnswerMeans(ws[k], es[k], key);
    CircuitStays(ws, es, key, k + 1, j);
    EnterMeans(ws[j], es[j]);
  }

  /** One good answer closes the circuit: the next request waits for a slot, at whatever time it comes. */
  lemma SuccessReopens(ws: seq<World>, es: seq<Event>, key: string, k: nat, j: nat)
    requires IsRun(ws, es) && k < j < |es|
    requires Answers(ws[k], es[k], key) && !Fails(es[k]) && forall n | k < n < j :: !Answers(ws[n], es[n], key)
    requires es[j].Enter? && es[j].key == key
    ensures ws[j + 1].requests[es[j].r].phase == Waiting
  {
    AnswerMeans(ws[k], es[k], key);
    CircuitStays(ws, es, key, k + 1, j);
    EnterMeans(ws[j], es[j]);
  }

  /** What the other steps do to the request and its slot. */
  lemma StepMeans(w: World, e: Event)
    requires Inv(w) && Enabled(w, e) && !e.Enter?
    ensures var q, after := w.requests[e.r], Apply(w, e);
            && e.r in after.requests
            && (forall o | o in w.requests && o != e.r :: o in after.requests && after.requests[o] == w.requests[o])
            && var now, was, left := after.requests[e.r].phase, HostOf(w, q.key).slots, HostOf(after, q.key).slots;
               && (e.Acquire? ==> was < 2 && left == was + 1 && now == Flying)
               && (e.GiveUp? ==> left == was && now == Over)
               && (e.Account? ==> left == was && now == if e.error then Leaving else Reading)
               && (e.Release? ==> left == was - 1 && now == Over)
               && (e.Close? ==> now == Over && left == if q.phase == Over then was else was - 1)
  {
    HoldersAfter(w, e, w.requests[e.r].key);
    assert HostOk(w, w.requests[e.r].key);
    if Gives(w, e) {
      assert e.r in Holders(w, w.requests[e.r].key);
    }
  }

  // ---- the code ----

  /** The state of one host, as the transport updates it under its lock. */
  class HostState {
    var slots: nat
    var failures: nat
    var until: int

    function Value(): Host
      reads this
    {
      Host(slots, failures, until)
    }

    constructor ()
      ensures Value() == Host(0, 0, 0)
    {
      slots, failures, until := 0, 0, 0;
    }

    /** The accounting of an answer, under the lock. */
    method Account(error: bool, serverError: bool, now: int)
      modifies this
      ensures Value() == Answered(old(Value()), error || serverError, now)
    {
      if error || serverError {
        failures := failures + 1;
        if failures >= 3 {
          until := now + MINUTE;
        }
      } else {
        failures := 0;
        until := 0;
      }
    }

    /** Receiving from the slot channel, after the lock is given up. */
    method Release()
      modifies this`slots
      ensures Value() == old(Value()).(slots := Less(old(slots)))
    {
      if slots > 0 {
        slots := slots - 1;
      }
    }
  }

  /** A response body that releases its slot once. */
  class GatedBody {
    const host: HostState
    var closed: bool

    constructor (host: HostState)
      ensures this.host == host && !closed
    {
      this.host, closed := host, false;
    }

    method Close()
      modifies this, host
      ensures closed
      ensures host.Value()
           == if old(closed) then old(host.Value()) else old(host.Value()).(slots := Less(old(host.slots)))
    {
      if !closed {
        closed := true;
        host.Release();
      }
    }
  }
}
