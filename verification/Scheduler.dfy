/**
 The scheduler: a delay queue, an index over it, and the messages held back.  The delay
 queue is a map from fresh keys to messages and deadlines; any expired entry may come first.
 */
module Schedulers {
  import opened Common
  import opened SchedulerSpec

  datatype QueueItem<T> = QueueItem(message: T, deadline: Instant)

  datatype ScheduledEntry = ScheduledEntry(runAt: Instant, queueKey: nat)

  lemma Shrinks<T>(queue: map<nat, QueueItem<T>>, key: nat)
    requires key in queue
    ensures |queue - {key}| < |queue|
  {
    assert queue == (queue - {key})[key := queue[key]];
  }

  function Times<T>(scheduled: map<T, ScheduledEntry>): map<T, Instant> {
    map m | m in scheduled :: scheduled[m].runAt
  }

  lemma TimesPut<T>(scheduled: map<T, ScheduledEntry>, m: T, e: ScheduledEntry)
    ensures Times(scheduled[m := e]) == Times(scheduled)[m := e.runAt]
  {
  }

  lemma TimesDrop<T>(scheduled: map<T, ScheduledEntry>, m: T)
    ensures Times(scheduled - {m}) == Times(scheduled) - {m}
  {
  }

  class Scheduler<T(==,!new)> {
    var queue: map<nat, QueueItem<T>>
    var nextKey: nat
    var scheduled: map<T, ScheduledEntry>
    var pending: set<T>
    /** Every request accepted and every message that left, in order. */
    ghost var history: seq<Event<T>>

    ghost function Current(): Plan<T>
      reads this
    {
      Plan(Times(scheduled), pending)
    }

    /** Queue and index are in bijection, apart from the held messages, and agree with the history. */
    ghost predicate Valid()
      reads this
    {
      && (forall k | k in queue :: k < nextKey)
      && (forall m | m in scheduled ::
            && scheduled[m].queueKey in queue
            && queue[scheduled[m].queueKey] == QueueItem(m, scheduled[m].runAt))
      && (forall k | k in queue :: queue[k].message in scheduled && scheduled[queue[k].message].queueKey == k)
      && scheduled.Keys !! pending
      && Current() == PlanOf(history)
    }

    constructor ()
      ensures Valid() && history == []
    {
      queue := map[];
      nextKey := 0;
      scheduled := map[];
      pending := {};
      history := [];
    }

    /** Schedule a message; an earlier time for a message already waiting takes precedence. */
    method ScheduleMessage(request: Request<T>)
      requires Valid()
      modifies this
      ensures Valid() && history == old(history) + [Asked(request)]
      ensures Current() == Schedule(old(Current()), request)
    {
      ghost var was := Current();
      history := history + [Asked(request)];
      assert history[..|history| - 1] == old(history);
      var m := request.message;
      if m in pending {
        return;
      }
      if m in scheduled {
        if scheduled[m].runAt >= request.runAt {
          var key := scheduled[m].queueKey;
          queue := queue[key := QueueItem(m, request.runAt)];
          TimesPut(scheduled, m, ScheduledEntry(request.runAt, key));
          scheduled := scheduled[m := ScheduledEntry(request.runAt, key)];
        }
      } else {
        queue := queue[nextKey := QueueItem(m, request.runAt)];
        TimesPut(scheduled, m, ScheduledEntry(request.runAt, nextKey));
        scheduled := scheduled[m := ScheduledEntry(request.runAt, nextKey)];
        nextKey := nextKey + 1;
      }
      assert Current() == Schedule(was, request);
    }

    /** Handle one expired queue entry: emit its message, or hold it. */
    method Expire(key: nat, can: T -> bool) returns (msg: T, taken: bool)
      requires Valid() && key in queue
      modifies this
      ensures Valid() && msg == old(queue[key].message) && msg in old(scheduled) && taken == can(msg)
      ensures history == old(history) + [if taken then Emitted(msg) else Fired(msg)]
      ensures Current() == Happen(old(Current()), if taken then Emitted(msg) else Fired(msg))
      ensures queue == old(queue) - {key}
    {
      ghost var was := Current();
      msg := queue[key].message;
      queue := queue - {key};
      // The index has every queued message, so this removal always finds its entry.
      assert msg in scheduled;
      TimesDrop(scheduled, msg);
      scheduled := scheduled - {msg};
      taken := can(msg);
      if !taken {
        pending := pending + {msg};
      }
      ghost var event := if taken then Emitted(msg) else Fired(msg);
      history := history + [event];
      assert history[..|history| - 1] == old(history);
      assert Current() == Happen(was, event);
    }

    /** Take some held message that may be taken, if there is one. */
    method TakePending(now: Instant, can: T -> bool) returns (r: Poll<T>)
      requires Valid()
      modifies this
      ensures Valid()
      ensures history == if r.Ready? then old(history) + [Emitted(r.value)] else old(history)
      ensures r.Ready? ==> Polled(old(Current()), now, can, Current(), r)
      ensures r.Pending? ==> Current() == old(Current()) && forall m | m in pending :: !can(m)
    {
      ghost var was := Current();
      if exists m :: m in pending && can(m) {
        var msg :| msg in pending && can(msg);
        pending := pending - {msg};
        history := history + [Emitted(msg)];
        assert history[..|history| - 1] == old(history);
        assert Current() == Happen(was, Emitted(msg));
        TakeHeld(was, now, can, msg);
        return Ready(msg);
      }
      r := Pending;
    }

    /** Expire due queue entries, holding those that may not be taken, until one may be. */
    method PollExpired(now: Instant, can: T -> bool) returns (r: Poll<T>, ghost events: seq<Event<T>>)
      requires Valid() && forall m | m in pending :: !can(m)
      modifies this
      ensures Valid()
      ensures history == old(history) + events && Attempt(events, r)
      ensures Polled(old(Current()), now, can, Current(), r)
    {
      ghost var was := Current();
      events := [];
      while exists k :: k in queue && queue[k].deadline <= now
        invariant Valid() && history == old(history) + events && AllFired(events)
        invariant Halfway(was, now, can, Current())
        decreases |queue|
      {
        var k :| k in queue && queue[k].deadline <= now;
        ghost var before, entries := Current(), queue;
        FireStep(was, now, can, before, queue[k].message);
        var msg, taken := Expire(k, can);
        if taken {
          AttemptEnds(old(history), events, msg);
          return Ready(msg), events + [Emitted(msg)];
        }
        AttemptGoesOn(old(history), events, msg);
        events := events + [Fired(msg)];
        Shrinks(entries, k);
      }
      NothingDue(now);
      Stuck(was, now, can, Current());
      r := Pending;
    }

    /** Take a held message that may be taken, else expire queue entries until one may be. */
    method PollPopQueueMessage(now: Instant, can: T -> bool) returns (r: Poll<T>, ghost events: seq<Event<T>>)
      requires Valid()
      modifies this
      ensures Valid()
      ensures history == old(history) + events && Attempt(events, r)
      ensures Polled(old(Current()), now, can, Current(), r)
    {
      r := TakePending(now, can);
      if r.Pending? {
        r, events := PollExpired(now, can);
      } else {
        events := [Emitted(r.value)];
      }
    }

    lemma NothingDue(now: Instant)
      requires Valid() && forall k | k in queue :: queue[k].deadline > now
      ensures forall m | m in Current().times :: Current().times[m] > now
    {
    }

    /** Accept every request that is ready, then try to take a message; the stream ends with its requests. */
    method PollNext(requests: seq<Request<T>>, ended: bool, now: Instant, can: T -> bool)
      returns (r: Poll<Option<T>>, ghost events: seq<Event<T>>)
      requires Valid()
      modifies this
      ensures Valid()
      ensures history == old(history) + Asks(requests) + events
      ensures ended ==> r == Ready(None) && events == [] && Current() == ScheduleAll(old(Current()), requests)
      ensures !ended ==>
        && r != Ready(None)
        && Attempt(events, Taken(r))
        && Polled(ScheduleAll(old(Current()), requests), now, can, Current(), Taken(r))
      ensures var out := if r.Ready? && r.value.Some? then {r.value.value} else {};
              Known(Current()) + out == Known(old(Current())) + (set q | q in requests :: q.message)
    {
      ghost var was := Current();
      ScheduleAllKnows(was, requests);
      events := [];
      var i := 0;
      while i < |requests|
        invariant 0 <= i <= |requests|
        invariant Valid() && history == old(history) + Asks(requests[..i])
        invariant Current() == ScheduleAll(was, requests[..i])
      {
        ScheduleMessage(requests[i]);
        assert requests[..i + 1][..i] == requests[..i];
        NextAsked(old(history), requests, i);
        i := i + 1;
      }
      assert requests[..i] == requests;
      if ended {
        return Ready(None), [];
      }
      var taken;
      taken, events := PollPopQueueMessage(now, can);
      match taken
      case Ready(msg) => r := Ready(Some(msg));
      case Pending => r := Pending;
    }
  }

  /** What a poll of the stream took, if anything. */
  function Taken<T>(r: Poll<Option<T>>): Poll<T> {
    if r.Ready? && r.value.Some? then Ready(r.value.value) else Pending
  }

  lemma AttemptGoesOn<T>(history: seq<Event<T>>, events: seq<Event<T>>, m: T)
    requires AllFired(events)
    ensures AllFired(events + [Fired(m)])
    ensures history + events + [Fired(m)] == history + (events + [Fired(m)])
  {
  }

  lemma AttemptEnds<T>(history: seq<Event<T>>, events: seq<Event<T>>, m: T)
    requires AllFired(events)
    ensures Attempt(events + [Emitted(m)], Ready(m))
    ensures history + events + [Emitted(m)] == history + (events + [Emitted(m)])
  {
    assert (events + [Emitted(m)])[..|events|] == events;
  }

  lemma NextAsked<T>(history: seq<Event<T>>, requests: seq<Request<T>>, i: nat)
    requires i < |requests|
    ensures history + Asks(requests[..i]) + [Asked(requests[i])] == history + Asks(requests[..i + 1])
  {
    assert Asks(requests[..i + 1]) == Asks(requests[..i]) + [Asked(requests[i])];
  }
}
