/**
 Waiting on one named object: `watch_object`, `await_condition`, the condition
 combinators, and `delete_and_finalize` on top of the watcher's runs.
 */
module Wait {
  import opened Common
  import opened Watcher

  type Seen = Option<Object>
  type Condition = Seen -> bool

  /** What `watch_object` makes of one item of the watcher's stream. */
  function WatchObject(item: Result<Event, WatchError>): Result<Seen, WatchError> {
    match item
    case Err(e) => Err(e)
    case Ok(Deleted(_)) => Ok(None)
    case Ok(Restarted(objs)) =>
      if |objs| > 1 then Err(TooManyObjects)
      else if objs == [] then Ok(None)
      else Ok(Some(objs[|objs| - 1]))
    case Ok(Applied(obj)) => Ok(Some(obj))
  }

  function WatchItems(emitted: seq<Result<Event, WatchError>>): seq<Result<Seen, WatchError>> {
    seq(|emitted|, i requires 0 <= i < |emitted| => WatchObject(emitted[i]))
  }

  function IsDeleted(uid: string): Condition {
    (obj: Seen) => obj.Some? ==> obj.value.uid != Some(uid)
  }

  function Not(a: Condition): Condition { (obj: Seen) => !a(obj) }

  function And(a: Condition, b: Condition): Condition { (obj: Seen) => a(obj) && b(obj) }

  function Or(a: Condition, b: Condition): Condition { (obj: Seen) => a(obj) || b(obj) }

  /** Skip items until the condition holds; `None` while the stream has not decided yet. */
  function AwaitCondition(items: seq<Result<Seen, WatchError>>, cond: Condition): Option<Result<Seen, WatchError>> {
    if items == [] then None
    else
      match items[0]
      case Err(e) => Some(Err(e))
      case Ok(obj) => if cond(obj) then Some(Ok(obj)) else AwaitCondition(items[1..], cond)
  }

  /** Nothing before `n` fails or satisfies the condition. */
  predicate Skipped(items: seq<Result<Seen, WatchError>>, cond: Condition, n: nat)
    requires n <= |items|
  {
    forall i | 0 <= i < n :: items[i].Ok? && !cond(items[i].value)
  }

  /** `await_condition` answers with the first item that fails or satisfies the condition. */
  lemma {:induction false} AwaitsFirst(items: seq<Result<Seen, WatchError>>, cond: Condition) returns (n: nat)
    ensures n <= |items| && Skipped(items, cond, n)
    ensures AwaitCondition(items, cond).None? <==> n == |items|
    ensures n < |items| ==>
      AwaitCondition(items, cond) == Some(items[n]) && (items[n].Ok? ==> cond(items[n].value))
  {
    if items == [] || items[0].Err? || cond(items[0].value) {
      n := 0;
    } else {
      n := AwaitsFirst(items[1..], cond);
      n := n + 1;
      assert forall i | 0 < i < n :: items[i] == items[1..][i - 1];
    }
  }

  /** Waiting for either of two conditions is over as soon as the wait for one of them is. */
  lemma {:induction false} AwaitOr(items: seq<Result<Seen, WatchError>>, a: Condition, b: Condition)
    ensures AwaitCondition(items, Or(a, b)).None? <==>
            AwaitCondition(items, a).None? && AwaitCondition(items, b).None?
    ensures AwaitCondition(items, Or(a, b)).Some? ==>
            AwaitCondition(items, Or(a, b)) == AwaitCondition(items, a) || AwaitCondition(items, Or(a, b)) == AwaitCondition(items, b)
    ensures AwaitCondition(items, Not(And(Not(a), Not(b)))) == AwaitCondition(items, Or(a, b))
  {
    if items != [] {
      AwaitOr(items[1..], a, b);
    }
  }

  // ------------------------------------------------------- delete and wait

  /** The details of a status; a uid that the server leaves out is the empty string. */
  datatype StatusDetails = StatusDetails(uid: string)

  /** The answer to a DELETE: the object, now being deleted, or a status about an object already gone. */
  datatype DeleteReply =
    | Deleting(obj: Object)
    | Gone(details: Option<StatusDetails>)
    | Refused

  datatype DeleteError = NoUid | DeleteFailed | AwaitFailed(cause: WatchError)

  function UidOf(reply: DeleteReply): Option<string> {
    match reply
    case Deleting(obj) => obj.uid
    case Gone(None) => None
    case Gone(Some(details)) => Some(details.uid)
    case Refused => None
  }

  function DeleteAndFinalize(reply: DeleteReply, items: seq<Result<Seen, WatchError>>): Option<Result<(), DeleteError>> {
    if reply.Refused? then Some(Err(DeleteFailed))
    else
      match UidOf(reply)
      case None => Some(Err(NoUid))
      case Some(uid) =>
        match AwaitCondition(items, IsDeleted(uid))
        case None => None
        case Some(Err(e)) => Some(Err(AwaitFailed(e)))
        case Some(Ok(_)) => Some(Ok(()))
  }

  /** The watch selects one name; the server gives every object a uid. */
  predicate OneName(log: seq<Change>, name: string) {
    && WellFormed(log)
    && forall i | 0 <= i < |log| && !log[i].Unseen? :: log[i].obj.name == name && log[i].obj.uid.Some?
  }

  ghost predicate Present(log: seq<Change>, v: Version, uid: string)
    requires v <= |log|
  {
    exists k | k in Snapshot(log, v) :: Snapshot(log, v)[k].uid == Some(uid)
  }

  /** A uid that has gone away never comes back. */
  ghost predicate NoUidReuse(log: seq<Change>) {
    forall uid, a, b, c | 0 <= a <= b <= c <= |log| && Present(log, a, uid) && !Present(log, b, uid) :: !Present(log, c, uid)
  }

  lemma {:induction false} OnlyThatName(log: seq<Change>, name: string, v: Version)
    requires OneName(log, name) && v <= |log|
    ensures Snapshot(log, v).Keys <= {name}
  {
    if v > 0 {
      OnlyThatName(log, name, v - 1);
    }
  }

  /** What an emitted event says about the server at the version then held. */
  ghost predicate Reports(log: seq<Change>, v: Version, event: Event)
    requires v <= |log|
  {
    match event
    case Restarted(objs) => Lists(objs, Snapshot(log, v))
    case Applied(obj) => v > 0 && log[v - 1] == Put(obj)
    case Deleted(obj) => v > 0 && log[v - 1] == Del(obj)
  }

  lemma EmittedReports(w: World, reply: Reply)
    requires Inv(w) && Possible(w, Poll(reply))
    requires var out := StepTrampolined(w.state, reply).0; out.Some? && out.value.Ok?
    ensures Next(w, Poll(reply)).held <= |w.log|
    ensures Reports(w.log, Next(w, Poll(reply)).held, StepTrampolined(w.state, reply).0.value.value)
  {
  }

  /** Main result: each event shows the watched object exactly as the server has it at the version then held. */
  lemma ShowsObject(log: seq<Change>, v: Version, event: Event, name: string)
    requires OneName(log, name) && v <= |log| && Reports(log, v, event)
    ensures WatchObject(Ok(event)) == Ok(if name in Snapshot(log, v) then Some(Snapshot(log, v)[name]) else None)
  {
    OnlyThatName(log, name, v);
    var objects := Snapshot(log, v);
    if event.Restarted? {
      AtMostOne(objects, name);
      if name in objects {
        assert objects[name] in event.objs;
      } else {
        assert |objects| == 0;
      }
    } else {
      OnlyThatName(log, name, v - 1);
      assert log[v - 1].obj.name == name;
      assert objects == Effect(Snapshot(log, v - 1), log[v - 1]);
    }
  }

  lemma AtMostOne(objects: Objects, name: string)
    requires objects.Keys <= {name}
    ensures |objects| == if name in objects then 1 else 0
  {
    assert |objects| == |objects.Keys|;
    if name in objects {
      assert objects.Keys == {name};
    } else {
      assert objects.Keys == {};
    }
  }

  lemma ReportedAbsent(log: seq<Change>, v: Version, event: Event, name: string, uid: string)
    requires OneName(log, name) && v <= |log| && Reports(log, v, event)
    requires var item := WatchObject(Ok(event)); item.Ok? && IsDeleted(uid)(item.value)
    ensures !Present(log, v, uid)
  {
    OnlyThatName(log, name, v);
    SnapshotKeyed(log, v);
    var objects := Snapshot(log, v);
    if event.Restarted? {
      forall k | k in objects ensures objects[k].uid != Some(uid) {
        assert objects[k] in event.objs;
      }
    } else {
      OnlyThatName(log, name, v - 1);
      assert log[v - 1].obj.name == name;
      assert objects == Effect(Snapshot(log, v - 1), log[v - 1]);
    }
  }

  /** An item on which the wait ends proves the uid absent at the version then held. */
  lemma ObservedAbsent(w: World, reply: Reply, name: string, uid: string)
    requires Inv(w) && Possible(w, Poll(reply)) && OneName(w.log, name)
    requires StepTrampolined(w.state, reply).0.Some?
    requires var item := WatchObject(StepTrampolined(w.state, reply).0.value);
             item.Ok? && IsDeleted(uid)(item.value)
    ensures Next(w, Poll(reply)).held <= |w.log|
    ensures !Present(w.log, Next(w, Poll(reply)).held, uid)
  {
    EmittedReports(w, reply);
    ReportedAbsent(w.log, Next(w, Poll(reply)).held, StepTrampolined(w.state, reply).0.value.value, name, uid);
  }

  /** The move of a run on which item `e` was emitted. */
  lemma {:induction false} EmittedAt(ws: seq<World>, ms: seq<Move>, n: nat, e: nat) returns (k: nat)
    requires IsRun(ws, ms) && n <= |ms| && e < |ws[n].emitted|
    ensures k < n && ms[k].Poll? && |ws[k].emitted| == e
    ensures StepTrampolined(ws[k].state, ms[k].reply).0 == Some(ws[n].emitted[e])
    decreases n
  {
    if n > 0 && e < |ws[n - 1].emitted| {
      k := EmittedAt(ws, ms, n - 1, e);
    } else {
      k := n - 1;
    }
  }

  lemma HeldStep(w: World, m: Move, start: nat)
    requires Inv(w) && Possible(w, m) && start <= |w.log|
    requires w.held >= start || (w.state.Empty? && Successes(w.emitted) == [])
    ensures start <= |Next(w, m).log|
    ensures Next(w, m).held >= start || (Next(w, m).state.Empty? && Successes(Next(w, m).emitted) == [])
  {
    NextKeeps(w, m);
    if m.Poll? && m.reply.ListFailed? {
      assert (w.emitted + [Err(InitialListFailed)])[..|w.emitted|] == w.emitted;
    }
  }

  /** The first successful item comes from a LIST made after the run began. */
  lemma {:induction false} HeldSinceStart(ws: seq<World>, ms: seq<Move>, n: nat)
    requires IsRun(ws, ms) && n <= |ms|
    ensures |ws[0].log| <= |ws[n].log|
    ensures ws[n].held >= |ws[0].log| || (ws[n].state.Empty? && Successes(ws[n].emitted) == [])
    decreases n
  {
    if n > 0 {
      HeldSinceStart(ws, ms, n - 1);
      StoreIsSnapshot(ws, ms, n - 1);
      HeldStep(ws[n - 1], ms[n - 1], |ws[0].log|);
    }
  }

  lemma AbsentForGood(log: seq<Change>, uid: string, a: Version, b: Version)
    requires NoUidReuse(log) && a <= b <= |log| && Present(log, a, uid) && !Present(log, b, uid)
    ensures forall v | b <= v <= |log| :: !Present(log, v, uid)
  {
  }

  /** A version that a reply of the run showed, no older than the run's start. */
  ghost predicate Observed(ws: seq<World>, ms: seq<Move>, v: Version)
    requires IsRun(ws, ms)
  {
    |ws[0].log| <= v <= |ws[|ms|].log| && exists n | 0 < n <= |ms| :: ms[n - 1].Poll? && ws[n].held == v
  }

  /** Main result: if `delete_and_finalize` succeeds, the uid it waited for is absent at a version it observed. */
  lemma SuccessSawAbsence(ws: seq<World>, ms: seq<Move>, reply: DeleteReply, name: string) returns (v: Version)
    requires IsRun(ws, ms) && OneName(ws[|ms|].log, name)
    requires DeleteAndFinalize(reply, WatchItems(ws[|ms|].emitted)) == Some(Ok(()))
    ensures UidOf(reply).Some? && Carries(reply, UidOf(reply).value)
    ensures Observed(ws, ms, v) && !Present(ws[|ms|].log, v, UidOf(reply).value)
  {
    var last := |ms|;
    var log := ws[last].log;
    var uid := UidOf(reply).value;
    var items := WatchItems(ws[last].emitted);
    var e := AwaitsFirst(items, IsDeleted(uid));
    var k := EmittedAt(ws, ms, last, e);
    StoreIsSnapshot(ws, ms, k);
    VersionsAdvance(ws, ms, k, last);
    VersionsAdvance(ws, ms, k + 1, last);
    StoreIsSnapshot(ws, ms, last);
    PrefixOneName(ws[k].log, log, name);
    ObservedAbsent(ws[k], ms[k].reply, name, uid);
    v := ws[k + 1].held;
    SameSnapshot(ws[k].log, log, v);
    HeldSinceStart(ws, ms, k + 1);
    SuccessCounted(ws[k].emitted, StepTrampolined(ws[k].state, ms[k].reply).0.value);
  }

  /** An object carried the uid at or before the start of the run. */
  ghost predicate Belonged(ws: seq<World>, ms: seq<Move>, uid: string)
    requires IsRun(ws, ms)
  {
    exists a | 0 <= a <= |ws[0].log| && a <= |ws[|ms|].log| :: Present(ws[|ms|].log, a, uid)
  }

  /**
   Main result: if moreover the uid belonged to an object before the wait began, then the deleted
   object is never on the server again from that version on, whatever events were missed.
   */
  lemma DeleteAndFinalizeSound(ws: seq<World>, ms: seq<Move>, reply: DeleteReply, name: string)
    requires IsRun(ws, ms) && OneName(ws[|ms|].log, name)
    requires DeleteAndFinalize(reply, WatchItems(ws[|ms|].emitted)) == Some(Ok(()))
    ensures UidOf(reply).Some?
    ensures exists b: Version :: Observed(ws, ms, b) && !Present(ws[|ms|].log, b, UidOf(reply).value) &&
              (NoUidReuse(ws[|ms|].log) && Belonged(ws, ms, UidOf(reply).value) ==>
                 forall v | b <= v <= |ws[|ms|].log| :: !Present(ws[|ms|].log, v, UidOf(reply).value))
  {
    var log, uid := ws[|ms|].log, UidOf(reply).value;
    var b := SuccessSawAbsence(ws, ms, reply, name);
    if NoUidReuse(log) && Belonged(ws, ms, uid) {
      var a :| 0 <= a <= |ws[0].log| && a <= |log| && Present(log, a, uid);
      AbsentForGood(log, uid, a, b);
    }
  }

  // -------------------------------------------------- what the wait answers

  /** The delete was accepted, and this is the uid of the object it was about. */
  predicate Carries(reply: DeleteReply, uid: string) {
    match reply
    case Deleting(obj) => obj.uid == Some(uid)
    case Gone(details) => details.Some? && details.value.uid == uid
    case Refused => false
  }

  /** Which items end the wait: a failure, or a look at the server without that uid. */
  predicate Ends(item: Result<Seen, WatchError>, uid: string) {
    item.Ok? ==> !(item.value.Some? && item.value.value.uid == Some(uid))
  }

  /** Main result: how `delete_and_finalize` answers, for every reply and every stream of items. */
  lemma DeleteAndFinalizeAnswers(reply: DeleteReply, items: seq<Result<Seen, WatchError>>, uid: string)
    ensures reply.Refused? <==> DeleteAndFinalize(reply, items) == Some(Err(DeleteFailed))
    ensures !reply.Refused? && (forall u :: !Carries(reply, u)) <==> DeleteAndFinalize(reply, items) == Some(Err(NoUid))
    ensures Carries(reply, uid) ==>
      && (DeleteAndFinalize(reply, items).None? <==> forall i | 0 <= i < |items| :: !Ends(items[i], uid))
      && forall n | 0 <= n < |items| && Ends(items[n], uid) && forall i | 0 <= i < n :: !Ends(items[i], uid) ::
           DeleteAndFinalize(reply, items) == Some(if items[n].Ok? then Ok(()) else Err(AwaitFailed(items[n].error)))
  {
    if Carries(reply, uid) {
      var n := AwaitsFirst(items, IsDeleted(uid));
      assert forall i | 0 <= i < n :: !Ends(items[i], uid);
      assert n < |items| ==> Ends(items[n], uid);
    } else {
      assert UidOf(reply).Some? ==> Carries(reply, UidOf(reply).value);
    }
  }

  /** Nothing has failed up to and including the item that move `n` emitted. */
  ghost predicate AllWellUntil(ws: seq<World>, ms: seq<Move>, n: nat)
    requires IsRun(ws, ms) && n < |ms|
  {
    forall i | 0 <= i < |ws[n].emitted| :: ws[n].emitted[i].Ok?
  }

  /**
   Main result: a wait that has met no error ends with success at the latest on an event at whose
   version the uid is absent: no deletion that the watcher reports is overlooked.
   */
  lemma DeletionEndsWait(ws: seq<World>, ms: seq<Move>, reply: DeleteReply, name: string, uid: string, n: nat)
    requires IsRun(ws, ms) && OneName(ws[|ms|].log, name) && Carries(reply, uid)
    requires n < |ms| && ms[n].Poll? && AllWellUntil(ws, ms, n)
    requires var out := StepTrampolined(ws[n].state, ms[n].reply).0; out.Some? && out.value.Ok?
    requires ws[n + 1].held <= |ws[n].log| && !Present(ws[n].log, ws[n + 1].held, uid)
    ensures DeleteAndFinalize(reply, WatchItems(ws[n + 1].emitted)) == Some(Ok(()))
  {
    StoreIsSnapshot(ws, ms, n);
    VersionsAdvance(ws, ms, n, |ms|);
    PrefixOneName(ws[n].log, ws[|ms|].log, name);
    var e := |ws[n].emitted|;
    var event := ws[n + 1].emitted[e].value;
    EmittedReports(ws[n], ms[n].reply);
    ShowsObject(ws[n].log, ws[n + 1].held, event, name);
    var items := WatchItems(ws[n + 1].emitted);
    AbsentSeen(ws[n].log, ws[n + 1].held, name, uid);
    assert items[e] == WatchObject(Ok(event)) && Ends(items[e], uid) && items[e].Ok?;
    forall i | 0 <= i < |items| ensures items[i].Ok? {
      if i < e {
        ItemShown(ws, ms, n, i, name);
      }
    }
    FirstEnd(reply, items, uid, e);
  }

  lemma AbsentSeen(log: seq<Change>, v: Version, name: string, uid: string)
    requires v <= |log| && !Present(log, v, uid)
    ensures name in Snapshot(log, v) ==> Snapshot(log, v)[name].uid != Some(uid)
  {
  }

  /** Every success of the run is shown as one item: a well-behaved server never gives too many objects. */
  lemma ItemShown(ws: seq<World>, ms: seq<Move>, n: nat, i: nat, name: string)
    requires IsRun(ws, ms) && n <= |ms| && OneName(ws[|ms|].log, name)
    requires i < |ws[n].emitted| && ws[n].emitted[i].Ok?
    ensures WatchObject(ws[n].emitted[i]).Ok?
  {
    var k := EmittedAt(ws, ms, n, i);
    StoreIsSnapshot(ws, ms, k);
    VersionsAdvance(ws, ms, k, |ms|);
    PrefixOneName(ws[k].log, ws[|ms|].log, name);
    EmittedReports(ws[k], ms[k].reply);
    ShowsObject(ws[k].log, ws[k + 1].held, ws[n].emitted[i].value, name);
  }

  lemma FirstEnd(reply: DeleteReply, items: seq<Result<Seen, WatchError>>, uid: string, e: nat)
    requires Carries(reply, uid) && e < |items| && Ends(items[e], uid)
    requires forall i | 0 <= i < |items| :: items[i].Ok?
    ensures DeleteAndFinalize(reply, items) == Some(Ok(()))
  {
    DeleteAndFinalizeAnswers(reply, items, uid);
    var n := AwaitsFirst(items, IsDeleted(uid));
    assert forall i | 0 <= i < n :: !Ends(items[i], uid);
    assert n < |items| && Ends(items[n], uid);
  }

  // ------------------------------------------- which replies can be trusted

  /** A wait for the deletion of the object `target`, which was there when it began, has reported success. */
  ghost predicate Succeeds(ws: seq<World>, ms: seq<Move>, reply: DeleteReply, name: string, target: string) {
    && IsRun(ws, ms)
    && OneName(ws[|ms|].log, name) && NoUidReuse(ws[|ms|].log)
    && Belonged(ws, ms, target)
    && DeleteAndFinalize(reply, WatchItems(ws[|ms|].emitted)) == Some(Ok(()))
  }

  /** Whatever the run, success means that the target is not on the server any more. */
  ghost predicate Trustworthy(reply: DeleteReply, name: string, target: string) {
    forall ws: seq<World>, ms: seq<Move> | Succeeds(ws, ms, reply, name, target) :: !Present(ws[|ms|].log, |ws[|ms|].log|, target)
  }

  function OneObject(name: string, uid: string): Object {
    Object(name, Some(uid), 1, "")
  }

  /** The shortest run: the object is there, and one list shows it. */
  lemma ShortestRun(name: string, uid: string) returns (ws: seq<World>, ms: seq<Move>)
    ensures IsRun(ws, ms) && ws[|ms|].log == [Put(OneObject(name, uid))]
    ensures |ws[0].log| == 1 && ws[|ms|].emitted == [Ok(Restarted([OneObject(name, uid)]))]
  {
    var o := OneObject(name, uid);
    var log := [Put(o)];
    SnapshotOfOne(o);
    var w := World(log, Empty, [], 0);
    ms := [Poll(Listed([o], 1))];
    assert Possible(w, ms[0]);
    ws := [w, Next(w, ms[0])];
  }

  lemma SnapshotOfOne(o: Object)
    ensures Snapshot([Put(o)], 0) == map[] && Snapshot([Put(o)], 1) == map[o.name := o]
  {
  }

  lemma OneObjectStays(name: string, uid: string)
    ensures var log := [Put(OneObject(name, uid))];
            OneName(log, name) && NoUidReuse(log) && Present(log, 1, uid)
  {
    var o := OneObject(name, uid);
    SnapshotOfOne(o);
    assert Snapshot([Put(o)], 1)[name].uid == Some(uid);
  }

  /** One item that shows another uid is enough for the wait to end. */
  lemma EndsOnOther(reply: DeleteReply, o: Object)
    requires !reply.Refused? && UidOf(reply).Some? && o.uid != UidOf(reply)
    ensures DeleteAndFinalize(reply, WatchItems([Ok(Restarted([o]))])) == Some(Ok(()))
  {
    var items := WatchItems([Ok(Restarted([o]))]);
    assert items == [Ok(Some(o))];
  }

  /**
   Main result: success can be trusted for the object that was deleted if and only if the reply
   carries that object's uid (or none, when there is no success at all).
   */
  lemma TrustworthyIff(reply: DeleteReply, name: string, target: string)
    ensures Trustworthy(reply, name, target) <==> (forall uid :: !Carries(reply, uid)) || Carries(reply, target)
  {
    assert UidOf(reply).Some? ==> Carries(reply, UidOf(reply).value);
    if UidOf(reply) == Some(target) {
      forall ws: seq<World>, ms: seq<Move> | Succeeds(ws, ms, reply, name, target) ensures !Present(ws[|ms|].log, |ws[|ms|].log|, target) {
        DeleteAndFinalizeSound(ws, ms, reply, name);
      }
    } else if UidOf(reply).Some? {
      var ws, ms := ShortestRun(name, target);
      OneObjectStays(name, target);
      EndsOnOther(reply, OneObject(name, target));
      assert Belonged(ws, ms, target);
      assert Succeeds(ws, ms, reply, name, target);
    }
  }

  /** A status with details but no uid: success is reported at once, with the object still there. */
  lemma EmptyUidSucceeds(name: string, uid: string) returns (ws: seq<World>, ms: seq<Move>)
    requires uid != ""
    ensures Succeeds(ws, ms, Gone(Some(StatusDetails(""))), name, uid)
    ensures Present(ws[|ms|].log, |ws[|ms|].log|, uid)
  {
    ws, ms := ShortestRun(name, uid);
    OneObjectStays(name, uid);
    EndsOnOther(Gone(Some(StatusDetails(""))), OneObject(name, uid));
    assert Belonged(ws, ms, uid);
  }

  lemma PrefixOneName(log: seq<Change>, whole: seq<Change>, name: string)
    requires log <= whole && OneName(whole, name)
    ensures OneName(log, name)
  {
    assert forall i | 0 <= i < |log| :: log[i] == whole[i];
  }

  lemma SameSnapshot(log: seq<Change>, whole: seq<Change>, v: Version)
    requires log <= whole && v <= |log|
    ensures Snapshot(whole, v) == Snapshot(log, v)
  {
    SnapshotGrows(log, whole[|log|..], v);
    assert log + whole[|log|..] == whole;
  }

  lemma SuccessCounted(emitted: seq<Result<Event, WatchError>>, out: Result<Event, WatchError>)
    requires out.Ok?
    ensures Successes(emitted + [out]) != []
  {
  }
}
