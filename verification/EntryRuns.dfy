/** Many clients, each with an entry, committing to the same server in any order. */
module EntryRuns {
  import opened Common
  import opened Entries

  type Client = nat

  /** One accepted save: who saved, on which object, and what it put in place of what. */
  datatype SaveRecord = SaveRecord(client: Client, replaced: Option<Object>, lastReceived: Option<Object>, stored: Object)

  /**
   `received` is the object each entry last got from a GET or a real save; `versions` is every
   object the server ever stored, by revision.
   */
  datatype World = World(
    server: Server,
    entries: map<Client, Entry>,
    received: map<Client, Object>,
    versions: map<Revision, Object>,
    saves: seq<SaveRecord>)

  datatype Step =
    | GetEntry(c: Client, name: string)
    | InsertNew(c: Client, name: string, o: Object)
    | Modify(c: Client, o: Object)
    | CommitEntry(c: Client, dryRun: bool, net: Network)
    | OtherWrite(name: string, o: Object)
    | OtherDelete(name: string)

  function Drop<T>(m: map<Client, T>, c: Client): map<Client, T> {
    m - {c}
  }

  function OpenEntry(w: World, c: Client, name: string): World {
    match Get(w.server, name)
    case None => w.(entries := Drop(w.entries, c), received := Drop(w.received, c))
    case Some(e) => w.(entries := w.entries[c := e], received := w.received[c := e.obj])
  }

  /** The server after a write, with the stored version recorded. */
  function Record(w: World, s: Server, name: string): World {
    if s.revision > w.server.revision && name in s.objects
    then w.(server := s, versions := w.versions[s.revision := s.objects[name]])
    else w.(server := s)
  }

  function CommitStep(w: World, namespace: Option<string>, c: Client, dryRun: bool, net: Network): World
    requires c in w.entries
  {
    var e := w.entries[c];
    var (s, e1, r) := Commit(w.server, namespace, e, dryRun, net);
    var w1 := Record(w, s, e.name).(entries := w.entries[c := e1]);
    var w2 := if r.Ok? && !dryRun && !e.dirtiness.Clean? then w1.(received := w.received[c := e1.obj]) else w1;
    if s.revision > w.server.revision && e.name in s.objects then
      var replaced := if e.name in w.server.objects then Some(w.server.objects[e.name]) else None;
      var last := if c in w.received then Some(w.received[c]) else None;
      w2.(saves := w.saves + [SaveRecord(c, replaced, last, s.objects[e.name])])
    else w2
  }

  /** One step; clients may change everything about their object but its resource version. */
  function Next(w: World, namespace: Option<string>, step: Step): Option<World> {
    match step
    case GetEntry(c, name) => Some(OpenEntry(w, c, name))
    case InsertNew(c, name, o) =>
      if c in w.entries then None
      else Some(w.(entries := w.entries[c := Insert(name, o)], received := Drop(w.received, c)))
    case Modify(c, o) =>
      if c !in w.entries || o.resourceVersion != w.entries[c].obj.resourceVersion then None
      else
        var e := w.entries[c];
        Some(w.(entries := w.entries[c := Entry(Touch(e.dirtiness), e.name, o)]))
    case CommitEntry(c, dryRun, net) =>
      if c in w.entries then Some(CommitStep(w, namespace, c, dryRun, net)) else None
    case OtherWrite(name, o) => Some(Record(w, Store(w.server, name, o).0, name))
    case OtherDelete(name) => Some(w.(server := Server(w.server.objects - {name}, w.server.revision + 1)))
  }

  function Start(): World {
    World(Server(map[], 0), map[], map[], map[], [])
  }

  function Run(namespace: Option<string>, steps: seq<Step>): Option<World> {
    if steps == [] then Some(Start())
    else
      match Run(namespace, steps[..|steps| - 1])
      case None => None
      case Some(w) => Next(w, namespace, steps[|steps| - 1])
  }

  // -------------------------------------------------------------- invariant

  /** The object is the one the server stored at its revision. */
  predicate Genuine(w: World, o: Object) {
    && o.resourceVersion.Some?
    && o.resourceVersion.value in w.versions
    && w.versions[o.resourceVersion.value] == o
  }

  ghost predicate EntryOk(w: World, c: Client)
    requires c in w.entries
  {
    var e := w.entries[c];
    if e.dirtiness.New? then c !in w.received
    else c in w.received && Genuine(w, w.received[c]) && e.obj.resourceVersion == w.received[c].resourceVersion
  }

  /** A save created a missing object, or replaced exactly the version its entry last received. */
  ghost predicate SaveOk(r: SaveRecord) {
    r.replaced == r.lastReceived
  }

  ghost predicate Inv(w: World) {
    && (forall k | k in w.versions :: k <= w.server.revision)
    && (forall n | n in w.server.objects :: Genuine(w, w.server.objects[n]))
    && (forall c | c in w.entries :: EntryOk(w, c))
    && (forall i | 0 <= i < |w.saves| :: SaveOk(w.saves[i]))
  }

  lemma RecordKeeps(w: World, name: string, o: Object)
    requires Inv(w)
    ensures Inv(Record(w, Store(w.server, name, o).0, name))
    ensures var w1 := Record(w, Store(w.server, name, o).0, name);
            && w1.entries == w.entries && w1.received == w.received && w1.saves == w.saves
            && Genuine(w1, Store(w.server, name, o).1)
            && forall x :: Genuine(w, x) ==> Genuine(w1, x)
  {
    var w1 := Record(w, Store(w.server, name, o).0, name);
    assert w1.server.objects[name] == Store(w.server, name, o).1;
  }

  predicate Saving(e: Entry, dryRun: bool) {
    !dryRun && !e.dirtiness.Clean?
  }

  /** A commit either leaves the server alone, or stores the prepared object under the entry's name. */
  lemma CommitStores(s: Server, namespace: Option<string>, e: Entry, dryRun: bool, net: Network)
    ensures
      var s1 := Commit(s, namespace, e, dryRun, net).0;
      s1 == s || (Saving(e, dryRun) && s1 == Store(s, e.name, Prepare(namespace, e).0.obj).0 && MaySave(s, e))
  {
  }

  /** The server takes a save only for a missing object, or at the version the client sent. */
  predicate MaySave(s: Server, e: Entry) {
    && (e.dirtiness.New? ==> e.name !in s.objects)
    && (e.dirtiness.Dirty? && e.obj.resourceVersion.Some? ==>
          e.name in s.objects && s.objects[e.name].resourceVersion == e.obj.resourceVersion)
  }

  /** What a commit leaves in the entry. */
  lemma CommitLeaves(s: Server, namespace: Option<string>, e: Entry, dryRun: bool, net: Network)
    ensures
      var (s1, e1, r) := Commit(s, namespace, e, dryRun, net);
      && e1.name == e.name && e1.obj.data == e.obj.data
      && if r.Ok? && Saving(e, dryRun) then
           s1 != s && e1.dirtiness.Clean? && e1.obj == Store(s, e.name, Prepare(namespace, e).0.obj).1
         else
           && e1.dirtiness == e.dirtiness
           && (!e.dirtiness.New? && e.obj.resourceVersion.Some? ==> e1.obj.resourceVersion == e.obj.resourceVersion)
  {
  }

  lemma CommitKeeps(w: World, namespace: Option<string>, c: Client, dryRun: bool, net: Network)
    requires Inv(w) && c in w.entries
    ensures Inv(CommitStep(w, namespace, c, dryRun, net))
  {
    var e := w.entries[c];
    var (s, e1, r) := Commit(w.server, namespace, e, dryRun, net);
    CommitStores(w.server, namespace, e, dryRun, net);
    CommitLeaves(w.server, namespace, e, dryRun, net);
    assert EntryOk(w, c);
    if s != w.server {
      SavedKeeps(w, c, Prepare(namespace, e).0.obj, e1, r.Ok?);
    }
  }

  /** An accepted save, whether or not its answer reaches the client. */
  lemma SavedKeeps(w: World, c: Client, o: Object, e1: Entry, answered: bool)
    requires Inv(w) && c in w.entries && MaySave(w.server, w.entries[c]) && !w.entries[c].dirtiness.Clean?
    requires
      var e := w.entries[c];
      if answered then e1.dirtiness.Clean? && e1.obj == Store(w.server, e.name, o).1
      else e1.dirtiness == e.dirtiness && (!e.dirtiness.New? ==> e1.obj.resourceVersion == e.obj.resourceVersion)
    ensures
      var e := w.entries[c];
      var w1 := Record(w, Store(w.server, e.name, o).0, e.name).(entries := w.entries[c := e1]);
      var w2 := if answered then w1.(received := w.received[c := e1.obj]) else w1;
      var replaced := if e.name in w.server.objects then Some(w.server.objects[e.name]) else None;
      var last := if c in w.received then Some(w.received[c]) else None;
      Inv(w2.(saves := w.saves + [SaveRecord(c, replaced, last, Store(w.server, e.name, o).1)]))
  {
    var e := w.entries[c];
    assert EntryOk(w, c);
    RecordKeeps(w, e.name, o);
  }

  lemma NextKeeps(w: World, namespace: Option<string>, step: Step)
    requires Inv(w) && Next(w, namespace, step).Some?
    ensures Inv(Next(w, namespace, step).value)
  {
    match step
    case CommitEntry(c, dryRun, net) => CommitKeeps(w, namespace, c, dryRun, net);
    case OtherWrite(name, o) => RecordKeeps(w, name, o);
    case _ =>
  }

  /**
   Main result: in every run, every accepted save either created a missing object or replaced
   exactly the object its entry last received, so no other save is silently overwritten.
   */
  lemma {:induction false} NoLostUpdate(namespace: Option<string>, steps: seq<Step>)
    requires Run(namespace, steps).Some?
    ensures Inv(Run(namespace, steps).value)
    ensures forall r <- Run(namespace, steps).value.saves :: r.replaced == r.lastReceived
  {
    if steps != [] {
      var before := steps[..|steps| - 1];
      NoLostUpdate(namespace, before);
      NextKeeps(Run(namespace, before).value, namespace, steps[|steps| - 1]);
    }
  }
}
