/**
 The watcher: a state machine that lists, watches and recovers, the event store fed by
 it, and the server it talks to, seen as a history of changes to the watched objects.
 */
module Watcher {
  import opened Common

  type Version = nat

  datatype Object = Object(name: string, uid: Option<string>, version: Version, body: string)

  datatype Event =
    | Applied(obj: Object)
    | Deleted(obj: Object)
    | Restarted(objs: seq<Object>)

  datatype WatchEvent =
    | Added(obj: Object)
    | Modified(obj: Object)
    | Removed(obj: Object)
    | Bookmark(version: Version)
    | Error(code: nat)

  datatype WatchError = InitialListFailed | WatchStartFailed(code: nat) | ErrorEvent(code: nat) | WatchFailed | TooManyObjects

  // ------------------------------------------------------------ the machine

  /** `cursor` is how far the open watch stream has got in the server's history. */
  datatype State =
    | Empty
    | InitListed(version: Version)
    | Watching(version: Version, cursor: Version)

  /** What comes back from the one request or stream poll that a step awaits. */
  datatype Reply =
    | Listed(items: seq<Object>, version: Version)
    | ListFailed
    | Started(cursor: Version)
    | StartFailed(code: nat)
    | Item(event: WatchEvent, cursor: Version)
    | StreamFailed
    | StreamEnded

  /** A reply to the request that the state makes. */
  predicate Fits(state: State, reply: Reply) {
    match state
    case Empty => reply.Listed? || reply.ListFailed?
    case InitListed(_) => reply.Started? || reply.StartFailed?
    case Watching(_, _) => reply.Item? || reply.StreamFailed? || reply.StreamEnded?
  }

  /** One step: what it emits, if anything, and the next state. */
  function StepTrampolined(state: State, reply: Reply): (Option<Result<Event, WatchError>>, State)
    requires Fits(state, reply)
  {
    match state
    case Empty =>
      (match reply
       case Listed(items, version) => (Some(Ok(Restarted(items))), InitListed(version))
       case ListFailed => (Some(Err(InitialListFailed)), Empty))
    case InitListed(version) =>
      (match reply
       case Started(cursor) => (None, Watching(version, cursor))
       case StartFailed(code) => (Some(Err(WatchStartFailed(code))), InitListed(version)))
    case Watching(version, at) =>
      (match reply
       case Item(Added(obj), cursor) => (Some(Ok(Applied(obj))), Watching(obj.version, cursor))
       case Item(Modified(obj), cursor) => (Some(Ok(Applied(obj))), Watching(obj.version, cursor))
       case Item(Removed(obj), cursor) => (Some(Ok(Deleted(obj))), Watching(obj.version, cursor))
       case Item(Bookmark(v), cursor) => (None, Watching(v, cursor))
       case Item(Error(code), cursor) =>
         (Some(Err(ErrorEvent(code))), if code == 410 then Empty else Watching(version, cursor))
       case StreamFailed => (Some(Err(WatchFailed)), Watching(version, at))
       case StreamEnded => (None, InitListed(version)))
  }

  /** The machine falls back to a fresh LIST exactly on an error event with code 410. */
  lemma RelistsIff(state: State, reply: Reply)
    requires Fits(state, reply) && !state.Empty?
    ensures StepTrampolined(state, reply).1.Empty? <==> reply.Item? && reply.event == Error(410)
  {
  }

  // ------------------------------------------------------------- the server

  /**
   One change of the server's version counter.  `Unseen` changes concern objects outside the watch.
   */
  datatype Change = Put(obj: Object) | Del(obj: Object) | Unseen

  type Objects = map<string, Object>

  /** Objects carry the version of the change that wrote (or removed) them. */
  predicate WellFormed(log: seq<Change>) {
    forall i | 0 <= i < |log| && !log[i].Unseen? :: log[i].obj.version == i + 1
  }

  function Effect(objects: Objects, c: Change): Objects {
    match c
    case Put(obj) => objects[obj.name := obj]
    case Del(obj) => objects - {obj.name}
    case Unseen => objects
  }

  /** The watched objects at version `v`. */
  function Snapshot(log: seq<Change>, v: Version): Objects
    requires v <= |log|
  {
    if v == 0 then map[] else Effect(Snapshot(log, v - 1), log[v - 1])
  }

  predicate NothingSeen(log: seq<Change>, from: Version, to: Version)
    requires from <= to <= |log|
  {
    forall i | from <= i < to :: log[i].Unseen?
  }

  /** The items are the objects of the snapshot, each once, in any order. */
  ghost predicate Lists(items: seq<Object>, objects: Objects) {
    && |items| == |objects|
    && (forall o <- items :: o.name in objects && objects[o.name] == o)
    && (forall k | k in objects :: objects[k] in items)
  }

  /** An event, and the cursor after it, that a watch positioned at `at` may deliver next. */
  predicate Delivers(log: seq<Change>, at: Version, event: WatchEvent, cursor: Version)
    requires at <= |log|
  {
    match event
    case Added(obj) => at < cursor <= |log| && NothingSeen(log, at, cursor - 1) && log[cursor - 1] == Put(obj)
    case Modified(obj) => at < cursor <= |log| && NothingSeen(log, at, cursor - 1) && log[cursor - 1] == Put(obj)
    case Removed(obj) => at < cursor <= |log| && NothingSeen(log, at, cursor - 1) && log[cursor - 1] == Del(obj)
    case Bookmark(v) => v == cursor && at <= cursor <= |log| && NothingSeen(log, at, cursor)
    case Error(_) => cursor == at
  }

  /** The replies a server with this history may give; requests and streams may fail at any time. */
  ghost predicate ServerMayReply(log: seq<Change>, state: State, reply: Reply) {
    && Fits(state, reply)
    && match reply
       case Listed(items, version) => version == |log| && Lists(items, Snapshot(log, version))
       case Started(cursor) => cursor == state.version
       case Item(event, cursor) => state.cursor <= |log| && Delivers(log, state.cursor, event, cursor)
       case _ => true
  }

  lemma {:induction false} SnapshotKeyed(log: seq<Change>, v: Version)
    requires v <= |log|
    ensures forall k | k in Snapshot(log, v) :: Snapshot(log, v)[k].name == k
  {
    if v > 0 {
      SnapshotKeyed(log, v - 1);
    }
  }

  lemma {:induction false} SnapshotGrows(log: seq<Change>, more: seq<Change>, v: Version)
    requires v <= |log|
    ensures Snapshot(log + more, v) == Snapshot(log, v)
  {
    if v > 0 {
      SnapshotGrows(log, more, v - 1);
    }
  }

  lemma {:induction false} SnapshotSame(log: seq<Change>, from: Version, to: Version)
    requires from <= to <= |log| && NothingSeen(log, from, to)
    ensures Snapshot(log, to) == Snapshot(log, from)
  {
    if from < to {
      SnapshotSame(log, from, to - 1);
    }
  }

  // --------------------------------------------------------------- the store

  /** What one event does to a store. */
  function ApplyEvent(store: Objects, event: Event): Objects {
    match event
    case Applied(obj) => store[obj.name := obj]
    case Deleted(obj) => store - {obj.name}
    case Restarted(objs) => Collect(objs)
  }

  /** Later objects replace earlier ones of the same name. */
  function Collect(objs: seq<Object>): Objects {
    if objs == [] then map[]
    else
      var o := objs[|objs| - 1];
      Collect(objs[..|objs| - 1])[o.name := o]
  }

  function FoldEvents(store: Objects, events: seq<Event>): Objects {
    if events == [] then store
    else ApplyEvent(FoldEvents(store, events[..|events| - 1]), events[|events| - 1])
  }

  lemma {:induction false} CollectLists(items: seq<Object>, objects: Objects)
    requires forall o <- items :: o.name in objects && objects[o.name] == o
    ensures forall k :: k in Collect(items) <==> exists o :: o in items && o.name == k
    ensures forall k | k in Collect(items) :: k in objects && Collect(items)[k] == objects[k]
  {
    if items != [] {
      var n := |items| - 1;
      CollectLists(items[..n], objects);
      assert items == items[..n] + [items[n]];
    }
  }

  /** Collecting a listed snapshot gives back the snapshot. */
  lemma CollectSnapshot(items: seq<Object>, objects: Objects)
    requires Lists(items, objects) && forall k | k in objects :: objects[k].name == k
    ensures Collect(items) == objects
  {
    CollectLists(items, objects);
    forall k | k in objects ensures k in Collect(items) {
      var o := objects[k];
      assert o in items && o.name == k;
    }
  }

  /** The writable store behind a reflector. */
  class Writer {
    var store: Objects

    constructor ()
      ensures store == map[]
    {
      store := map[];
    }

    /** Apply one watcher event in place. */
    method ApplyWatcherEvent(event: Event)
      modifies this
      ensures store == ApplyEvent(old(store), event)
    {
      match event
      case Applied(obj) => store := store[obj.name := obj];
      case Deleted(obj) => store := store - {obj.name};
      case Restarted(objs) =>
        var collected: Objects := map[];
        var i := 0;
        assert objs[..0] == [];
        while i < |objs|
          invariant 0 <= i <= |objs|
          invariant collected == Collect(objs[..i])
        {
          collected := collected[objs[i].name := objs[i]];
          assert objs[..i + 1][..i] == objs[..i];
          i := i + 1;
        }
        assert objs[..i] == objs;
        store := collected;
    }
  }

  // -------------------------------------------------------------- whole runs

  /** The server, the machine, what it has emitted, and the last version it held. */
  datatype World = World(
    log: seq<Change>,
    state: State,
    emitted: seq<Result<Event, WatchError>>,
    held: Version)

  datatype Move =
    | ServerChanges(change: Change)
    | Poll(reply: Reply)

  function Emit(emitted: seq<Result<Event, WatchError>>, out: Option<Result<Event, WatchError>>): seq<Result<Event, WatchError>> {
    if out.Some? then emitted + [out.value] else emitted
  }

  function VersionOf(state: State, held: Version): Version {
    if state.Empty? then held else state.version
  }

  ghost predicate Possible(w: World, m: Move) {
    match m
    case ServerChanges(change) => WellFormed(w.log + [change])
    case Poll(reply) => ServerMayReply(w.log, w.state, reply)
  }

  ghost function Next(w: World, m: Move): World
    requires Possible(w, m)
  {
    match m
    case ServerChanges(change) => w.(log := w.log + [change])
    case Poll(reply) =>
      var (out, state) := StepTrampolined(w.state, reply);
      World(w.log, state, Emit(w.emitted, out), VersionOf(state, w.held))
  }

  ghost predicate Start(w: World) {
    WellFormed(w.log) && w.state.Empty? && w.emitted == [] && w.held == 0
  }

  /** The worlds of a run, one more than its moves. */
  ghost predicate IsRun(ws: seq<World>, ms: seq<Move>) {
    && |ws| == |ms| + 1
    && Start(ws[0])
    && forall i | 0 <= i < |ms| :: Possible(ws[i], ms[i]) && ws[i + 1] == Next(ws[i], ms[i])
  }

  function Successes(emitted: seq<Result<Event, WatchError>>): seq<Event> {
    if emitted == [] then []
    else
      var last := emitted[|emitted| - 1];
      Successes(emitted[..|emitted| - 1]) + (if last.Ok? then [last.value] else [])
  }

  /** A store that starts empty and is fed every event emitted so far. */
  function StoreOf(w: World): Objects {
    FoldEvents(map[], Successes(w.emitted))
  }

  ghost predicate Inv(w: World) {
    && WellFormed(w.log)
    && w.held <= |w.log|
    && StoreOf(w) == Snapshot(w.log, w.held)
    && (!w.state.Empty? ==> w.state.version == w.held)
    && (w.state.Watching? ==> w.state.cursor == w.held)
  }

  lemma StoreStep(emitted: seq<Result<Event, WatchError>>, out: Result<Event, WatchError>)
    ensures FoldEvents(map[], Successes(emitted + [out])) ==
            if out.Ok? then ApplyEvent(FoldEvents(map[], Successes(emitted)), out.value)
            else FoldEvents(map[], Successes(emitted))
  {
    assert (emitted + [out])[..|emitted|] == emitted;
    var before := Successes(emitted);
    if out.Ok? {
      assert (before + [out.value])[..|before|] == before;
    } else {
      assert before + [] == before;
    }
  }

  /** A listed snapshot replaces the store with the server's current objects. */
  lemma ListedKeeps(w: World, items: seq<Object>)
    requires Inv(w) && w.state.Empty? && Lists(items, Snapshot(w.log, |w.log|))
    ensures Inv(World(w.log, InitListed(|w.log|), w.emitted + [Ok(Restarted(items))], |w.log|))
  {
    SnapshotKeyed(w.log, |w.log|);
    CollectSnapshot(items, Snapshot(w.log, |w.log|));
    StoreStep(w.emitted, Ok(Restarted(items)));
  }

  /** A delivered event moves the store from the held version to the event's own version. */
  lemma EventKeeps(w: World, event: Event, cursor: Version)
    requires Inv(w) && w.held < cursor <= |w.log| && NothingSeen(w.log, w.held, cursor - 1)
    requires (event.Applied? && w.log[cursor - 1] == Put(event.obj)) || (event.Deleted? && w.log[cursor - 1] == Del(event.obj))
    ensures event.obj.version == cursor
    ensures Inv(World(w.log, Watching(cursor, cursor), w.emitted + [Ok(event)], cursor))
  {
    var change := w.log[cursor - 1];
    assert change.obj.version == cursor;
    var w1 := World(w.log, Watching(cursor, cursor), w.emitted + [Ok(event)], cursor);
    assert StoreOf(w1) == Snapshot(w.log, cursor) by {
      SnapshotSame(w.log, w.held, cursor - 1);
      StoreStep(w.emitted, Ok(event));
      EventIsChange(StoreOf(w), event, change);
    }
  }

  lemma EventIsChange(store: Objects, event: Event, change: Change)
    requires (event.Applied? && change == Put(event.obj)) || (event.Deleted? && change == Del(event.obj))
    ensures ApplyEvent(store, event) == Effect(store, change)
  {
  }

  /** Output that is not an event leaves the store alone. */
  lemma QuietKeeps(w: World, state: State, out: Option<Result<Event, WatchError>>)
    requires Inv(w) && (out.Some? ==> out.value.Err?)
    requires !state.Empty? ==> w.held <= state.version <= |w.log| && NothingSeen(w.log, w.held, state.version)
    requires state.Watching? ==> state.cursor == state.version
    ensures Inv(World(w.log, state, Emit(w.emitted, out), VersionOf(state, w.held)))
  {
    if !state.Empty? {
      SnapshotSame(w.log, w.held, state.version);
    }
    if out.Some? {
      StoreStep(w.emitted, out.value);
    }
  }

  lemma PollKeeps(w: World, reply: Reply)
    requires Inv(w) && Possible(w, Poll(reply))
    ensures Inv(Next(w, Poll(reply))) && w.held <= Next(w, Poll(reply)).held
  {
    var (out, state) := StepTrampolined(w.state, reply);
    if reply.Listed? {
      ListedKeeps(w, reply.items);
    } else if reply.Item? && !reply.event.Bookmark? && !reply.event.Error? {
      EventKeeps(w, out.value.value, reply.cursor);
    } else {
      QuietKeeps(w, state, out);
    }
  }

  lemma NextKeeps(w: World, m: Move)
    requires Inv(w) && Possible(w, m)
    ensures Inv(Next(w, m)) && w.held <= Next(w, m).held && w.log <= Next(w, m).log
  {
    match m
    case ServerChanges(change) => SnapshotGrows(w.log, [change], w.held);
    case Poll(reply) => PollKeeps(w, reply);
  }

  /**
   Main result: after every move of every run, folding the emitted events gives exactly the
   server's objects at the version held; while recovering from 410 that is the last version held.
   */
  lemma {:induction false} StoreIsSnapshot(ws: seq<World>, ms: seq<Move>, n: nat)
    requires IsRun(ws, ms) && n <= |ms|
    ensures Inv(ws[n])
    decreases n
  {
    if n > 0 {
      StoreIsSnapshot(ws, ms, n - 1);
      NextKeeps(ws[n - 1], ms[n - 1]);
    }
  }

  /** Versions never go backwards, and the history a snapshot was read from only grows. */
  lemma {:induction false} VersionsAdvance(ws: seq<World>, ms: seq<Move>, i: nat, j: nat)
    requires IsRun(ws, ms) && i <= j <= |ms|
    ensures ws[i].held <= ws[j].held && ws[i].log <= ws[j].log
    decreases j - i
  {
    if i < j {
      VersionsAdvance(ws, ms, i, j - 1);
      StoreIsSnapshot(ws, ms, j - 1);
      NextKeeps(ws[j - 1], ms[j - 1]);
    }
  }

  // ------------------------------------------------- the trampoline's loop

  /** The replies fit the states met on the way; the last one ends the call with an output. */
  ghost predicate Drives(state: State, replies: seq<Reply>)
    decreases |replies|
  {
    && replies != [] && Fits(state, replies[0])
    && var (out, next) := StepTrampolined(state, replies[0]);
       if |replies| == 1 then out.Some? else out.None? && Drives(next, replies[1..])
  }

  /** Where the machine is after these replies, and what it emitted on the last one. */
  ghost function Drive(state: State, replies: seq<Reply>): (Result<Event, WatchError>, State)
    requires Drives(state, replies)
    decreases |replies|
  {
    var (out, next) := StepTrampolined(state, replies[0]);
    if |replies| == 1 then (out.value, next) else Drive(next, replies[1..])
  }

  /** The trampoline: step until something is emitted. */
  method Step(initial: State, replies: seq<Reply>) returns (out: Result<Event, WatchError>, state: State)
    requires Drives(initial, replies)
    ensures (out, state) == Drive(initial, replies)
  {
    state := initial;
    var i := 0;
    while true
      invariant 0 <= i < |replies|
      invariant Drives(state, replies[i..])
      invariant Drive(state, replies[i..]) == Drive(initial, replies)
      decreases |replies| - i
    {
      var (emitted, next) := StepTrampolined(state, replies[i]);
      assert replies[i..][1..] == replies[i + 1..];
      state := next;
      if emitted.Some? {
        return emitted.value, state;
      }
      i := i + 1;
    }
  }
}
