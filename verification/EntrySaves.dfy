/**
 What reaches the server: modifications and insertions are saved by the next commit, as they are and
 under the entry's own name and namespace; nothing else is sent.
 */
module EntrySaves {
  import opened Common
  import opened Entries
  import opened EntryRuns

  /** The server stores `data` under the name, in the right place, at a new version, and nothing else changes. */
  predicate Saved(s: Server, namespace: Option<string>, name: string, data: string, s1: Server) {
    && name in s1.objects
    && s1.objects[name] == Object(Some(name), namespace, None, Some(s.revision + 1), data)
    && s1.revision == s.revision + 1
    && s1.objects.Keys == s.objects.Keys + {name}
    && forall k | k in s.objects && k != name :: s1.objects[k] == s.objects[k]
  }

  /** Main result: whatever a commit stores is the entry's data, under its name, in the namespace of the API. */
  lemma StoredAsAsked(s: Server, namespace: Option<string>, e: Entry, dryRun: bool, net: Network)
    requires Commit(s, namespace, e, dryRun, net).0 != s
    ensures !dryRun && !e.dirtiness.Clean? && Belongs(namespace, e.name, e.obj)
    ensures Saved(s, namespace, e.name, e.obj.data, Commit(s, namespace, e, dryRun, net).0)
  {
  }

  /** Main result: an existing object that is fetched, modified and committed is stored as modified. */
  lemma ModifyThenCommit(s: Server, namespace: Option<string>, name: string, o: Object)
    requires name in s.objects && o.resourceVersion == s.objects[name].resourceVersion && Belongs(namespace, name, o)
    ensures
      var e := Get(s, name).value;
      var (s1, e1, r) := Commit(s, namespace, Entry(Touch(e.dirtiness), e.name, o), false, Reliable);
      && r.Ok? && Saved(s, namespace, name, o.data, s1)
      && e1.dirtiness.Clean? && e1.obj == s1.objects[name]
  {
  }

  /** Main result: a missing object that is inserted, modified or not, and committed is created. */
  lemma InsertThenCommit(s: Server, namespace: Option<string>, name: string, first: Object, o: Object, modified: bool)
    requires name !in s.objects && o.resourceVersion.None? && Belongs(namespace, name, o)
    requires !modified ==> o == first
    ensures
      var e := Insert(name, first);
      var d := if modified then Touch(e.dirtiness) else e.dirtiness;
      var (s1, e1, r) := Commit(s, namespace, Entry(d, e.name, o), false, Reliable);
      && r.Ok? && Saved(s, namespace, name, o.data, s1)
      && e1.dirtiness.Clean? && e1.obj == s1.objects[name]
  {
  }

  /** Main result: an object that is fetched and not modified is not sent at all, whatever the network does. */
  lemma UnmodifiedNotSent(s: Server, s1: Server, namespace: Option<string>, name: string, dryRun: bool, net: Network)
    requires name in s.objects
    ensures Commit(s1, namespace, Get(s, name).value, dryRun, net).0 == s1
    ensures Belongs(namespace, name, s.objects[name]) <==> Commit(s1, namespace, Get(s, name).value, dryRun, net).2.Ok?
    ensures Get(s, name).value.obj == s.objects[name]
  {
  }

  /** The first thing that keeps an object from being saved, before anything is sent. */
  predicate Misplaced(namespace: Option<string>, name: string, o: Object, cause: ValidationError) {
    match cause
    case NameMismatch => o.name.Some? && o.name != Some(name)
    case NamespaceMismatch => (o.name.None? || o.name == Some(name)) && o.namespace.Some? && o.namespace != namespace
    case GenerateName =>
      (o.name.None? || o.name == Some(name)) && (o.namespace.None? || o.namespace == namespace) && o.generateName.Some?
  }

  /** Main result: which error a commit reports, over any network. */
  lemma CommitReports(s: Server, namespace: Option<string>, e: Entry, dryRun: bool, net: Network)
    ensures forall cause :: Commit(s, namespace, e, dryRun, net).2 == Err(Validate(cause)) <==> Misplaced(namespace, e.name, e.obj, cause)
    ensures Belongs(namespace, e.name, e.obj) && !e.dirtiness.Clean? && !net.Reliable? ==>
      Commit(s, namespace, e, dryRun, net).2 == Err(Save(Transport))
    ensures Belongs(namespace, e.name, e.obj) && e.dirtiness.New? && net.Reliable? && e.obj.resourceVersion.None? && e.name in s.objects ==>
      Commit(s, namespace, e, dryRun, net).2 == Err(Save(AlreadyExists))
    ensures Belongs(namespace, e.name, e.obj) && e.dirtiness.Dirty? && net.Reliable? && e.name !in s.objects ==>
      Commit(s, namespace, e, dryRun, net).2 == Err(Save(NotFound))
    ensures
      Belongs(namespace, e.name, e.obj) && e.dirtiness.Dirty? && net.Reliable? && e.name in s.objects
      && e.obj.resourceVersion.Some? && e.obj.resourceVersion != s.objects[e.name].resourceVersion ==>
      Commit(s, namespace, e, dryRun, net).2 == Err(Save(Conflict))
  {
  }

  lemma TwoSteps(namespace: Option<string>, steps: seq<Step>, a: Step, b: Step)
    requires Run(namespace, steps + [a, b]).Some?
    ensures Run(namespace, steps).Some? && Next(Run(namespace, steps).value, namespace, a).Some?
    ensures Run(namespace, steps + [a, b]) == Next(Next(Run(namespace, steps).value, namespace, a).value, namespace, b)
  {
    var all := steps + [a, b];
    assert all[..|all| - 1] == steps + [a] && (steps + [a])[..|steps|] == steps;
  }

  /** No one else has saved the object since the client fetched it, or it is still missing. */
  predicate UpToDate(s: Server, e: Entry) {
    if e.dirtiness.New? then e.name !in s.objects && e.obj.resourceVersion.None?
    else e.name in s.objects && e.obj.resourceVersion == s.objects[e.name].resourceVersion
  }

  /**
   Main result: in every run, a client that modifies an up-to-date entry and commits it has its
   modification on the server, recorded as one more save.
   */
  lemma ModifiedIsSaved(namespace: Option<string>, steps: seq<Step>, c: Client, o: Object)
    requires Run(namespace, steps + [Modify(c, o), CommitEntry(c, false, Reliable)]).Some?
    requires Run(namespace, steps).Some? && c in Run(namespace, steps).value.entries
    requires var w := Run(namespace, steps).value;
             UpToDate(w.server, w.entries[c]) && Belongs(namespace, w.entries[c].name, o)
    ensures
      var w, w1 := Run(namespace, steps).value, Run(namespace, steps + [Modify(c, o), CommitEntry(c, false, Reliable)]).value;
      var name := w.entries[c].name;
      && Saved(w.server, namespace, name, o.data, w1.server)
      && |w1.saves| == |w.saves| + 1 && w.saves <= w1.saves
      && w1.saves[|w.saves|].client == c && w1.saves[|w.saves|].stored == w1.server.objects[name]
  {
    TwoSteps(namespace, steps, Modify(c, o), CommitEntry(c, false, Reliable));
    var w := Run(namespace, steps).value;
    PendingIsSaved(Next(w, namespace, Modify(c, o)).value, namespace, c);
  }

  lemma PendingIsSaved(w: World, namespace: Option<string>, c: Client)
    requires c in w.entries && !w.entries[c].dirtiness.Clean?
    requires UpToDate(w.server, w.entries[c]) && Belongs(namespace, w.entries[c].name, w.entries[c].obj)
    ensures
      var w1, e := CommitStep(w, namespace, c, false, Reliable), w.entries[c];
      && Saved(w.server, namespace, e.name, e.obj.data, w1.server)
      && |w1.saves| == |w.saves| + 1 && w.saves <= w1.saves
      && w1.saves[|w.saves|].client == c && w1.saves[|w.saves|].stored == w1.server.objects[e.name]
  {
  }
}
