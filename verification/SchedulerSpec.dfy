/**
 What the scheduler stands for: a plain map from each waiting message to its earliest
 requested time, and the set of messages held back by a predicate.
 */
module SchedulerSpec {

  type Instant = nat

  datatype Request<T> = Request(message: T, runAt: Instant)

  datatype Poll<T> = Ready(value: T) | Pending

  datatype Plan<T> = Plan(times: map<T, Instant>, held: set<T>)

  datatype Event<T> = Asked(request: Request<T>) | Fired(message: T) | Emitted(message: T)

  function Known<T>(p: Plan<T>): set<T> {
    p.times.Keys + p.held
  }

  /** A held message ignores requests; any other keeps the earlier time. */
  function Schedule<T>(p: Plan<T>, r: Request<T>): Plan<T> {
    if r.message in p.held || (r.message in p.times && p.times[r.message] < r.runAt) then p
    else p.(times := p.times[r.message := r.runAt])
  }

  function ScheduleAll<T>(p: Plan<T>, rs: seq<Request<T>>): Plan<T> {
    if rs == [] then p else Schedule(ScheduleAll(p, rs[..|rs| - 1]), rs[|rs| - 1])
  }

  function Happen<T>(p: Plan<T>, e: Event<T>): Plan<T> {
    match e
    case Asked(r) => Schedule(p, r)
    case Fired(m) => Plan(p.times - {m}, p.held + {m})
    case Emitted(m) => Plan(p.times - {m}, p.held - {m})
  }

  /** The plan after everything that has happened, starting from nothing. */
  function PlanOf<T>(history: seq<Event<T>>): Plan<T> {
    if history == [] then Plan(map[], {})
    else Happen(PlanOf(history[..|history| - 1]), history[|history| - 1])
  }

  /** The times asked for `m` since it last left the queue. */
  function RequestsSince<T(==)>(history: seq<Event<T>>, m: T): seq<Instant> {
    if history == [] then []
    else
      var before := RequestsSince(history[..|history| - 1], m);
      match history[|history| - 1]
      case Asked(r) => if r.message == m then before + [r.runAt] else before
      case Fired(x) => if x == m then [] else before
      case Emitted(x) => if x == m then [] else before
  }

  ghost predicate IsMinimum(t: Instant, ts: seq<Instant>) {
    t in ts && forall x <- ts :: t <= x
  }

  /**
   Main result: a waiting message is stored with the minimum of all requests made for it since it
   last left; one that is neither waiting nor held has no such request.
   */
  lemma {:induction false} EarliestWins<T>(history: seq<Event<T>>, m: T)
    ensures PlanOf(history).times.Keys !! PlanOf(history).held
    ensures m in PlanOf(history).times ==> IsMinimum(PlanOf(history).times[m], RequestsSince(history, m))
    ensures m !in Known(PlanOf(history)) <==> m !in PlanOf(history).held && RequestsSince(history, m) == []
  {
    if history != [] {
      var n := |history| - 1;
      EarliestWins(history[..n], m);
      var before := RequestsSince(history[..n], m);
      if history[n].Asked? && history[n].request.message == m {
        var t := history[n].request.runAt;
        assert forall x :: x in before + [t] <==> x in before || x == t;
      }
    }
  }

  /** The events of one attempt to take a message: some held back, and at the end the one taken, if any. */
  ghost predicate Attempt<T>(events: seq<Event<T>>, r: Poll<T>) {
    match r
    case Ready(m) => events != [] && events[|events| - 1] == Emitted(m) && AllFired(events[..|events| - 1])
    case Pending => AllFired(events)
  }

  ghost predicate AllFired<T>(events: seq<Event<T>>) {
    forall i | 0 <= i < |events| :: events[i].Fired?
  }

  /** The requests as events, in the order they came. */
  function Asks<T>(requests: seq<Request<T>>): seq<Event<T>> {
    seq(|requests|, i requires 0 <= i < |requests| => Asked(requests[i]))
  }

  lemma {:induction false} AsksNoted<T>(history: seq<Event<T>>, requests: seq<Request<T>>, q: Request<T>)
    requires q in requests
    ensures q.runAt in RequestsSince(history + Asks(requests), q.message)
  {
    var n := |requests| - 1;
    var all := history + Asks(requests);
    assert all[..|all| - 1] == history + Asks(requests[..n]) && all[|all| - 1] == Asked(requests[n]);
    if q in requests[..n] {
      AsksNoted(history, requests[..n], q);
    } else {
      assert q == requests[n];
    }
  }

  /** Events of an attempt leave the requests for a message alone, unless the message leaves the queue. */
  lemma {:induction false} AttemptKeeps<T>(history: seq<Event<T>>, events: seq<Event<T>>, m: T)
    requires forall i | 0 <= i < |events| :: !events[i].Asked?
    requires m in PlanOf(history + events).times
    ensures m in PlanOf(history).times && RequestsSince(history + events, m) == RequestsSince(history, m)
    ensures PlanOf(history + events).times[m] == PlanOf(history).times[m]
  {
    if events == [] {
      assert history + events == history;
    } else {
      var n := |events| - 1;
      assert (history + events)[..|history| + n] == history + events[..n];
      AttemptKeeps(history, events[..n], m);
    }
  }

  /**
   Main result: after a poll a waiting message is stored with the minimum over the requests that were
   outstanding before and those that the poll accepted.
   */
  lemma PollStoresMinimum<T>(history: seq<Event<T>>, requests: seq<Request<T>>, events: seq<Event<T>>, m: T)
    requires forall i | 0 <= i < |events| :: !events[i].Asked?
    requires m in PlanOf(history + Asks(requests) + events).times
    ensures
      var t := PlanOf(history + Asks(requests) + events).times[m];
      && IsMinimum(t, RequestsSince(history + Asks(requests), m))
      && forall q <- requests :: q.message == m ==> t <= q.runAt
  {
    AttemptKeeps(history + Asks(requests), events, m);
    EarliestWins(history + Asks(requests), m);
    forall q | q in requests && q.message == m ensures q.runAt in RequestsSince(history + Asks(requests), m) {
      AsksNoted(history, requests, q);
    }
  }

  lemma {:induction false} ScheduleAllKnows<T>(p: Plan<T>, rs: seq<Request<T>>)
    ensures Known(ScheduleAll(p, rs)) == Known(p) + (set r | r in rs :: r.message)
    ensures ScheduleAll(p, rs).held == p.held
  {
    if rs != [] {
      var n := |rs| - 1;
      ScheduleAllKnows(p, rs[..n]);
      assert rs == rs[..n] + [rs[n]];
      assert (set r | r in rs :: r.message) == (set r | r in rs[..n] :: r.message) + {rs[n].message};
    }
  }

  predicate Due<T(==)>(p: Plan<T>, now: Instant, m: T) {
    m in p.held || (m in p.times && p.times[m] <= now)
  }

  /** What one attempt to take a message may do. */
  ghost predicate Polled<T(!new)>(p: Plan<T>, now: Instant, can: T -> bool, p1: Plan<T>, r: Poll<T>) {
    var out := if r.Ready? then {r.value} else {};
    && Known(p1) + out == Known(p)
    && Known(p1) !! out
    && (forall m | m in p1.times :: m in p.times && p1.times[m] == p.times[m])
    && (forall m | m in p1.held :: Due(p, now, m) && (m !in p.held ==> !can(m)))
    && (r.Ready? ==> Due(p, now, r.value) && can(r.value))
    && (r.Pending? ==> (forall m | m in p1.held :: !can(m)) && (forall m | m in p1.times :: p1.times[m] > now))
  }

  /** Halfway through an attempt: due messages that may not be taken have moved to the held set. */
  ghost predicate Halfway<T(!new)>(p: Plan<T>, now: Instant, can: T -> bool, q: Plan<T>) {
    && Known(q) == Known(p) && q.times.Keys !! q.held
    && (forall m | m in q.times :: m in p.times && q.times[m] == p.times[m])
    && (forall m | m in q.held :: Due(p, now, m) && !can(m))
  }

  lemma FireStep<T(!new)>(p: Plan<T>, now: Instant, can: T -> bool, q: Plan<T>, m: T)
    requires Halfway(p, now, can, q) && m in q.times && q.times[m] <= now
    ensures !can(m) ==> Halfway(p, now, can, Happen(q, Fired(m)))
    ensures can(m) ==> Polled(p, now, can, Happen(q, Emitted(m)), Ready(m))
  {
    assert Known(Happen(q, Fired(m))) == Known(q);
    assert Known(Happen(q, Emitted(m))) == Known(q) - {m};
  }

  lemma Stuck<T(!new)>(p: Plan<T>, now: Instant, can: T -> bool, q: Plan<T>)
    requires Halfway(p, now, can, q) && forall m | m in q.times :: q.times[m] > now
    ensures Polled(p, now, can, q, Pending)
  {
  }

  lemma TakeHeld<T(!new)>(p: Plan<T>, now: Instant, can: T -> bool, m: T)
    requires m in p.held && can(m) && p.times.Keys !! p.held
    ensures Polled(p, now, can, Happen(p, Emitted(m)), Ready(m))
  {
    assert Known(Happen(p, Emitted(m))) == Known(p) - {m};
  }

  /** No head-of-line blocking: whatever is held, a due message that may be taken makes the poll ready. */
  lemma NoBlocking<T(!new)>(p: Plan<T>, now: Instant, can: T -> bool, p1: Plan<T>, r: Poll<T>, m: T)
    requires Polled(p, now, can, p1, r) && Due(p, now, m) && can(m) && p.times.Keys !! p.held
    ensures r.Ready?
  {
    assert m in Known(p);
    assert r.Pending? ==> m in Known(p1);
  }

  /** A pending poll moves exactly the due messages to the held set. */
  lemma PendingHoldsDue<T(!new)>(p: Plan<T>, now: Instant, can: T -> bool, p1: Plan<T>)
    requires Polled(p, now, can, p1, Pending) && p.times.Keys !! p.held && p1.times.Keys !! p1.held
    ensures forall m :: m in p1.held <==> Due(p, now, m)
    ensures forall m :: m in p1.times <==> m in p.times && p.times[m] > now
  {
    forall m | Due(p, now, m) ensures m in p1.held {
      assert m in Known(p1);
    }
    forall m | m in p.times && p.times[m] > now ensures m in p1.times {
      assert m in Known(p1);
    }
  }
}
