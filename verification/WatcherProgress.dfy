/**
 Progress of the watcher: after an ended stream, a failed poll, a refused request or a 410 it asks for
 what brings the store up to date again, and a server that answers gets it there.
 */
module WatcherProgress {
  import opened Common
  import opened Watcher

  /** The change at position `k` is the first one after `from` that the watch shows. */
  predicate NextSeen(log: seq<Change>, from: Version, k: nat) {
    from <= k < |log| && NothingSeen(log, from, k) && !log[k].Unseen?
  }

  function ItemOf(change: Change): WatchEvent
    requires !change.Unseen?
  {
    match change
    case Put(obj) => Modified(obj)
    case Del(obj) => Removed(obj)
  }

  function EventOf(change: Change): Event
    requires !change.Unseen?
  {
    match change
    case Put(obj) => Applied(obj)
    case Del(obj) => Deleted(obj)
  }

  /**
   From this world the server can deliver its next visible change; the machine emits it, and the
   store is then the server's snapshot right after it.
   */
  ghost predicate Follows(w: World) {
    forall k: nat | NextSeen(w.log, w.held, k) ::
      var m := Poll(Item(ItemOf(w.log[k]), k + 1));
      && Possible(w, m)
      && Next(w, m).emitted == w.emitted + [Ok(EventOf(w.log[k]))]
      && Next(w, m).held == k + 1
      && StoreOf(Next(w, m)) == Snapshot(w.log, k + 1)
  }

  /** Main result: a watching machine follows the server's changes one by one. */
  lemma WatchingFollows(w: World)
    requires Inv(w) && w.state.Watching?
    ensures Follows(w)
  {
    forall k: nat | NextSeen(w.log, w.held, k)
      ensures var m := Poll(Item(ItemOf(w.log[k]), k + 1));
              Possible(w, m) && Next(w, m).emitted == w.emitted + [Ok(EventOf(w.log[k]))]
              && Next(w, m).held == k + 1 && StoreOf(Next(w, m)) == Snapshot(w.log, k + 1)
    {
      var m := Poll(Item(ItemOf(w.log[k]), k + 1));
      assert w.log[k].obj.version == k + 1;
      NextKeeps(w, m);
    }
  }

  /** A machine that has listed asks for a watch at the version it holds, and then follows. */
  lemma ListedResumes(w: World)
    requires Inv(w) && w.state.InitListed?
    ensures
      var m := Poll(Started(w.held));
      && Possible(w, m)
      && Next(w, m).log == w.log && Next(w, m).held == w.held && Next(w, m).emitted == w.emitted
      && Follows(Next(w, m))
  {
    var m := Poll(Started(w.held));
    NextKeeps(w, m);
    WatchingFollows(Next(w, m));
  }

  /** Nothing was emitted, held or forgotten by the move, and the machine now asks for a new watch. */
  ghost predicate Resumes(w: World, w1: World) {
    && w1.log == w.log && w1.held == w.held
    && w1.state == InitListed(w.held)
    && Possible(w1, Poll(Started(w.held)))
    && Follows(Next(w1, Poll(Started(w.held))))
  }

  /** Main result: when a stream ends, a new watch is requested at the version held, and it misses nothing. */
  lemma EndedStreamResumes(w: World)
    requires Inv(w) && w.state.Watching?
    ensures Possible(w, Poll(StreamEnded))
    ensures Next(w, Poll(StreamEnded)).emitted == w.emitted && Resumes(w, Next(w, Poll(StreamEnded)))
  {
    NextKeeps(w, Poll(StreamEnded));
    ListedResumes(Next(w, Poll(StreamEnded)));
  }

  /** Main result: a refused watch request is reported, asked again, and the watch then misses nothing. */
  lemma RefusalResumes(w: World, code: nat)
    requires Inv(w) && w.state.InitListed?
    ensures
      var m := Poll(StartFailed(code));
      && Possible(w, m)
      && Next(w, m).emitted == w.emitted + [Err(WatchStartFailed(code))]
      && Resumes(w, Next(w, m))
  {
    var m := Poll(StartFailed(code));
    NextKeeps(w, m);
    ListedResumes(Next(w, m));
  }

  /** Main result: a failed poll, or an error event other than 410, is reported and the same stream goes on. */
  lemma FailureGoesOn(w: World, code: nat)
    requires Inv(w) && w.state.Watching?
    ensures
      && Possible(w, Poll(StreamFailed))
      && Next(w, Poll(StreamFailed)).emitted == w.emitted + [Err(WatchFailed)]
      && Next(w, Poll(StreamFailed)).held == w.held && Follows(Next(w, Poll(StreamFailed)))
    ensures
      var m := Poll(Item(Error(code), w.held));
      && Possible(w, m)
      && Next(w, m).emitted == w.emitted + [Err(ErrorEvent(code))]
      && (code != 410 ==> Next(w, m).held == w.held && Follows(Next(w, m)))
  {
    NextKeeps(w, Poll(StreamFailed));
    WatchingFollows(Next(w, Poll(StreamFailed)));
    var m := Poll(Item(Error(code), w.held));
    NextKeeps(w, m);
    if code != 410 {
      WatchingFollows(Next(w, m));
    }
  }

  /** Main result: a bookmark moves the held version on without a sound, and the same stream goes on. */
  lemma BookmarkGoesOn(w: World, v: Version)
    requires Inv(w) && w.state.Watching? && w.held <= v <= |w.log| && NothingSeen(w.log, w.held, v)
    ensures
      var m := Poll(Item(Bookmark(v), v));
      && Possible(w, m)
      && Next(w, m).emitted == w.emitted && Next(w, m).held == v && Follows(Next(w, m))
  {
    var m := Poll(Item(Bookmark(v), v));
    NextKeeps(w, m);
    WatchingFollows(Next(w, m));
  }

  /** Every snapshot can be listed. */
  lemma {:induction false} Listing(objects: Objects) returns (items: seq<Object>)
    requires forall k | k in objects :: objects[k].name == k
    ensures Lists(items, objects)
    decreases |objects|
  {
    if objects == map[] {
      items := [];
    } else {
      var k :| k in objects;
      var rest := objects - {k};
      assert objects == rest[k := objects[k]];
      var others := Listing(rest);
      items := others + [objects[k]];
    }
  }

  /** A listing that fails is reported and tried again; one that succeeds gives the current snapshot. */
  ghost predicate ListsNow(w: World) {
    && w.state.Empty?
    && Possible(w, Poll(ListFailed))
    && Next(w, Poll(ListFailed)) == w.(emitted := w.emitted + [Err(InitialListFailed)])
    && forall items | Lists(items, Snapshot(w.log, |w.log|)) ::
         var m := Poll(Listed(items, |w.log|));
         && Possible(w, m)
         && Next(w, m).emitted == w.emitted + [Ok(Restarted(items))]
         && Next(w, m).held == |w.log| && StoreOf(Next(w, m)) == Snapshot(w.log, |w.log|)
         && Resumes(Next(w, m), Next(w, m))
  }

  lemma EmptyLists(w: World)
    requires Inv(w) && w.state.Empty?
    ensures ListsNow(w)
  {
    forall items | Lists(items, Snapshot(w.log, |w.log|))
      ensures var m := Poll(Listed(items, |w.log|));
              && Possible(w, m)
              && Next(w, m).emitted == w.emitted + [Ok(Restarted(items))]
              && Next(w, m).held == |w.log| && StoreOf(Next(w, m)) == Snapshot(w.log, |w.log|)
              && Resumes(Next(w, m), Next(w, m))
    {
      var m := Poll(Listed(items, |w.log|));
      NextKeeps(w, m);
      ListedResumes(Next(w, m));
    }
  }

  /** Main result: a 410 is reported and leads to a list, which shows the server as it is by then. */
  lemma GoneRelists(w: World)
    requires Inv(w) && w.state.Watching?
    ensures
      var m := Poll(Item(Error(410), w.held));
      && Possible(w, m)
      && Next(w, m).emitted == w.emitted + [Err(ErrorEvent(410))]
      && ListsNow(Next(w, m))
      && exists items :: Lists(items, Snapshot(w.log, |w.log|))
  {
    var m := Poll(Item(Error(410), w.held));
    NextKeeps(w, m);
    EmptyLists(Next(w, m));
    SnapshotKeyed(w.log, |w.log|);
    var items := Listing(Snapshot(w.log, |w.log|));
  }

  // ------------------------------------------------------------ catching up

  /** The moves are possible one after the other and lead from one world to the other. */
  ghost predicate Leads(w: World, ms: seq<Move>, w1: World)
    decreases |ms|
  {
    if ms == [] then w1 == w else Possible(w, ms[0]) && Leads(Next(w, ms[0]), ms[1..], w1)
  }

  lemma {:induction false} LeadsOn(w: World, a: seq<Move>, w1: World, b: seq<Move>, w2: World)
    requires Leads(w, a, w1) && Leads(w1, b, w2)
    ensures Leads(w, a + b, w2)
    decreases |a|
  {
    if a == [] {
      assert a + b == b;
    } else {
      LeadsOn(Next(w, a[0]), a[1..], w1, b, w2);
      assert (a + b)[1..] == a[1..] + b;
    }
  }

  lemma OneMove(w: World, m: Move)
    requires Possible(w, m)
    ensures Leads(w, [m], Next(w, m))
  {
    assert [m][1..] == [];
  }

  /** From a watching machine: deliver everything that is still to be seen. */
  lemma {:induction false} Drain(w: World) returns (ms: seq<Move>, w1: World)
    requires Inv(w) && w.state.Watching?
    ensures Leads(w, ms, w1) && w1.log == w.log && StoreOf(w1) == Snapshot(w.log, |w.log|)
    decreases |w.log| - w.held
  {
    if NothingSeen(w.log, w.held, |w.log|) {
      SnapshotSame(w.log, w.held, |w.log|);
      ms, w1 := [], w;
    } else {
      var k := FirstSeen(w.log, w.held);
      WatchingFollows(w);
      var m := Poll(Item(ItemOf(w.log[k]), k + 1));
      NextKeeps(w, m);
      var rest, last := Drain(Next(w, m));
      OneMove(w, m);
      LeadsOn(w, [m], Next(w, m), rest, last);
      ms, w1 := [m] + rest, last;
    }
  }

  lemma {:induction false} FirstSeen(log: seq<Change>, from: Version) returns (k: nat)
    requires from <= |log| && !NothingSeen(log, from, |log|)
    ensures NextSeen(log, from, k)
    decreases |log| - from
  {
    if !log[from].Unseen? {
      k := from;
    } else {
      k := FirstSeen(log, from + 1);
    }
  }

  /**
   Main result: from every reachable world there is a way, with a server that answers, to a store
   that is the server's current object set.
   */
  lemma CatchesUp(w: World) returns (ms: seq<Move>, w1: World)
    requires Inv(w)
    ensures Leads(w, ms, w1) && w1.log == w.log && StoreOf(w1) == Snapshot(w.log, |w.log|)
  {
    if w.state.Watching? {
      ms, w1 := Drain(w);
    } else if w.state.InitListed? {
      ListedResumes(w);
      var m := Poll(Started(w.held));
      NextKeeps(w, m);
      var rest, last := Drain(Next(w, m));
      OneMove(w, m);
      LeadsOn(w, [m], Next(w, m), rest, last);
      ms, w1 := [m] + rest, last;
    } else {
      SnapshotKeyed(w.log, |w.log|);
      var items := Listing(Snapshot(w.log, |w.log|));
      EmptyLists(w);
      var m := Poll(Listed(items, |w.log|));
      OneMove(w, m);
      ms, w1 := [m], Next(w, m);
    }
  }

  // ---------------------------------------------------------- one whole call

  function Polls(replies: seq<Reply>): seq<Move> {
    seq(|replies|, i requires 0 <= i < |replies| => Poll(replies[i]))
  }

  /** Main result: one call of the trampoline is a run of polls that emits exactly one item, its result. */
  lemma {:induction false} CallEmitsOnce(w: World, replies: seq<Reply>, w1: World)
    requires Drives(w.state, replies) && Leads(w, Polls(replies), w1)
    ensures w1.emitted == w.emitted + [Drive(w.state, replies).0] && w1.state == Drive(w.state, replies).1
    decreases |replies|
  {
    var next := Next(w, Poll(replies[0]));
    assert Polls(replies)[0] == Poll(replies[0]) && Polls(replies)[1..] == Polls(replies[1..]);
    if |replies| == 1 {
      assert Polls(replies[1..]) == [];
    } else {
      CallEmitsOnce(next, replies[1..], w1);
    }
  }
}
