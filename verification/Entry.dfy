/**
 Get-or-create and get-and-modify: the entry of one object name, the commit of its
 changes, and the API server's optimistic concurrency check.
 */
module Entries {
  import opened Common

  type Revision = nat

  datatype Object = Object(
    name: Option<string>,
    namespace: Option<string>,
    generateName: Option<string>,
    resourceVersion: Option<Revision>,
    data: string)

  datatype Dirtiness = Clean | Dirty | New

  datatype Entry = Entry(dirtiness: Dirtiness, name: string, obj: Object)

  // ------------------------------------------------------------- the server

  /** The objects under one `Api`, by name, and the last revision handed out. */
  datatype Server = Server(objects: map<string, Object>, revision: Revision)

  datatype ApiError = AlreadyExists | Conflict | NotFound | BadRequest | Transport

  /** What the network does to one request. */
  datatype Network = Reliable | RequestLost | ResponseLost

  function Store(s: Server, name: string, o: Object): (Server, Object) {
    var stored := o.(resourceVersion := Some(s.revision + 1));
    (Server(s.objects[name := stored], s.revision + 1), stored)
  }

  /** POST: the object must not exist and must not carry a version. */
  function Create(s: Server, name: string, o: Object, dryRun: bool): (Server, Result<Object, ApiError>) {
    if o.resourceVersion.Some? then (s, Err(BadRequest))
    else if name in s.objects then (s, Err(AlreadyExists))
    else if dryRun then (s, Ok(o))
    else
      var (s1, stored) := Store(s, name, o);
      (s1, Ok(stored))
  }

  /** PUT: the object must exist, at the version the client sends if it sends one. */
  function Replace(s: Server, name: string, o: Object, dryRun: bool): (Server, Result<Object, ApiError>) {
    if name !in s.objects then (s, Err(NotFound))
    else if o.resourceVersion.Some? && o.resourceVersion != s.objects[name].resourceVersion then (s, Err(Conflict))
    else if dryRun then (s, Ok(o.(resourceVersion := s.objects[name].resourceVersion)))
    else
      var (s1, stored) := Store(s, name, o);
      (s1, Ok(stored))
  }

  function Deliver(s: Server, net: Network, answered: (Server, Result<Object, ApiError>)): (Server, Result<Object, ApiError>) {
    match net
    case Reliable => answered
    case RequestLost => (s, Err(Transport))
    case ResponseLost => (answered.0, Err(Transport))
  }

  // -------------------------------------------------------------- the entry

  datatype ValidationError = NameMismatch | NamespaceMismatch | GenerateName

  datatype CommitError = Validate(cause: ValidationError) | Save(reason: ApiError)

  /** `Api::entry`: an occupied entry is clean; `None` is a vacant one. */
  function Get(s: Server, name: string): Option<Entry> {
    if name in s.objects then Some(Entry(Clean, name, s.objects[name])) else None
  }

  function Insert(name: string, o: Object): Entry {
    Entry(New, name, o)
  }

  /** Borrowing the object mutably marks a clean entry dirty. */
  function Touch(d: Dirtiness): Dirtiness {
    if d.New? then New else Dirty
  }

  /** Default name and namespace, and check that the object is still the one asked for. */
  function Prepare(namespace: Option<string>, e: Entry): (Entry, Option<ValidationError>) {
    var o := e.obj;
    if o.name.Some? && o.name.value != e.name then (e, Some(NameMismatch))
    else
      var named := o.(name := Some(e.name));
      if named.namespace.Some? && named.namespace != namespace then (e.(obj := named), Some(NamespaceMismatch))
      else
        var placed := named.(namespace := if named.namespace.Some? then named.namespace else namespace);
        (e.(obj := placed), if placed.generateName.Some? then Some(GenerateName) else None)
  }

  function Request(s: Server, e: Entry, dryRun: bool): (Server, Result<Object, ApiError>) {
    match e.dirtiness
    case New => Create(s, e.name, e.obj, dryRun)
    case Dirty => Replace(s, e.name, e.obj, dryRun)
    case Clean => (s, Ok(e.obj))
  }

  function Commit(s: Server, namespace: Option<string>, e: Entry, dryRun: bool, net: Network): (Server, Entry, Result<(), CommitError>) {
    var (e1, invalid) := Prepare(namespace, e);
    if invalid.Some? then (s, e1, Err(Validate(invalid.value)))
    else
      var (s1, saved) := if e1.dirtiness.Clean? then (s, Ok(e1.obj)) else Deliver(s, net, Request(s, e1, dryRun));
      match saved
      case Err(reason) => (s1, e1, Err(Save(reason)))
      case Ok(o) => (s1, e1.(obj := o, dirtiness := if dryRun then e1.dirtiness else Clean), Ok(()))
  }

  /** The API handle; the server behind it changes with every save. */
  class Api {
    const namespace: Option<string>
    var server: Server

    constructor (namespace: Option<string>, server: Server)
      ensures this.namespace == namespace && this.server == server
    {
      this.namespace := namespace;
      this.server := server;
    }
  }

  /** An occupied entry as the client holds it. */
  class OccupiedEntry {
    const name: string
    var dirtiness: Dirtiness
    var obj: Object

    function Value(): Entry
      reads this
    {
      Entry(dirtiness, name, obj)
    }

    constructor (e: Entry)
      ensures Value() == e
    {
      name := e.name;
      dirtiness := e.dirtiness;
      obj := e.obj;
    }

    /** Let `f` modify the object. */
    method AndModify(f: Object -> Object)
      modifies this
      ensures dirtiness == (if old(dirtiness) == New then New else Dirty) && obj == f(old(obj))
      ensures Value() == Entry(Touch(old(dirtiness)), name, f(old(obj)))
    {
      dirtiness := match dirtiness
        case Clean => Dirty
        case Dirty => Dirty
        case New => New;
      obj := f(obj);
    }

    method PrepareForCommit(namespace: Option<string>) returns (invalid: Option<ValidationError>)
      modifies this`obj
      ensures (Value(), invalid) == Prepare(namespace, old(Value()))
      ensures invalid == Some(NameMismatch) <==> old(obj.name).Some? && old(obj.name) != Some(name)
      ensures invalid.None? ==>
        && obj.name == Some(name) && obj.namespace == namespace && obj.generateName.None?
        && obj.data == old(obj.data) && obj.resourceVersion == old(obj.resourceVersion)
    {
      match obj.name {
        case None => obj := obj.(name := Some(name));
        case Some(n) => if n != name { return Some(NameMismatch); }
      }
      match obj.namespace {
        case None => obj := obj.(namespace := namespace);
        case Some(ns) => if Some(ns) != namespace { return Some(NamespaceMismatch); }
      }
      if obj.generateName.Some? {
        return Some(GenerateName);
      }
      invalid := None;
    }

    /** Create, replace or skip, as the dirtiness asks; the entry takes over what the server answered. */
    method CommitTo(api: Api, dryRun: bool, net: Network) returns (r: Result<(), CommitError>)
      modifies this, api
      ensures (api.server, Value(), r) == Commit(old(api.server), api.namespace, old(Value()), dryRun, net)
    {
      var invalid := PrepareForCommit(api.namespace);
      if invalid.Some? {
        return Err(Validate(invalid.value));
      }
      match dirtiness {
        case New =>
          var (server, saved) := Deliver(api.server, net, Create(api.server, name, obj, dryRun));
          api.server := server;
          if saved.Err? {
            return Err(Save(saved.error));
          }
          obj := saved.value;
        case Dirty =>
          var (server, saved) := Deliver(api.server, net, Replace(api.server, name, obj, dryRun));
          api.server := server;
          if saved.Err? {
            return Err(Save(saved.error));
          }
          obj := saved.value;
        case Clean =>
      }
      if !dryRun {
        dirtiness := Clean;
      }
      r := Ok(());
    }
  }

  // ------------------------------------------------------------- dry runs

  /** A dry run changes nothing on the server and leaves the entry as dirty as it was. */
  lemma DryRunKeepsPending(s: Server, namespace: Option<string>, e: Entry, net: Network)
    ensures Commit(s, namespace, e, true, net).0 == s
    ensures Commit(s, namespace, e, true, net).1.dirtiness == e.dirtiness
  {
  }

  /**
   After a successful dry run of a pending save, the real commit on the same server succeeds and
   stores the same data: the dry run neither used up the save nor blocked it.
   */
  lemma DryRunThenCommit(s: Server, namespace: Option<string>, e: Entry)
    requires !e.dirtiness.Clean?
    requires Commit(s, namespace, e, true, Reliable).2.Ok?
    ensures
      var e1 := Commit(s, namespace, e, true, Reliable).1;
      var (s2, e2, r) := Commit(s, namespace, e1, false, Reliable);
      && r.Ok? && e2.dirtiness.Clean?
      && e.name in s2.objects && s2.objects[e.name] == e2.obj
      && e2.obj.data == e.obj.data
      && s2.objects - {e.name} == s.objects - {e.name}
  {
    var e1 := Commit(s, namespace, e, true, Reliable).1;
    var s2 := Commit(s, namespace, e1, false, Reliable).0;
    assert s2.objects == s.objects[e.name := s2.objects[e.name]];
    assert s2.objects - {e.name} == s.objects - {e.name};
  }

  /** The object may be saved as it is, or with its unset name and namespace filled in. */
  predicate Belongs(namespace: Option<string>, name: string, o: Object) {
    && (o.name.None? || o.name == Some(name))
    && (o.namespace.None? || o.namespace == namespace)
    && o.generateName.None?
  }

  /** Exactly when a commit over a reliable network succeeds. */
  lemma CommitSucceedsIff(s: Server, namespace: Option<string>, e: Entry, dryRun: bool)
    ensures Commit(s, namespace, e, dryRun, Reliable).2.Ok? <==>
            && Belongs(namespace, e.name, e.obj)
            && (e.dirtiness.New? ==> e.name !in s.objects && e.obj.resourceVersion.None?)
            && (e.dirtiness.Dirty? ==>
                  && e.name in s.objects
                  && (e.obj.resourceVersion.Some? ==> e.obj.resourceVersion == s.objects[e.name].resourceVersion))
  {
  }
}
