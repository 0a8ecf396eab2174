/**
 The finalizer helper: what it decides on a snapshot, the JSON Patches it sends,
 and how the API server applies them.
 */
module Finalizer {
  import opened Common

  datatype Object = Object(name: Option<string>, finalizers: seq<string>, deleting: bool)

  // ------------------------------------------------------------ JSON Patch

  /** Pointers under `/metadata/finalizers`: the list, one index, or the end of the array. */
  datatype Pointer = Whole | At(index: nat) | End

  datatype Value = Null | Name(name: string) | Names(names: seq<string>)

  datatype Operation =
    | Test(path: Pointer, expected: Value)
    | Add(path: Pointer, added: Value)
    | Remove(path: Pointer)

  type Patch = seq<Operation>

  /** The list as a JSON member: the server does not serialise an empty list. */
  type Member = Option<seq<string>>

  function ToMember(finalizers: seq<string>): Member {
    if finalizers == [] then None else Some(finalizers)
  }

  function FromMember(m: Member): seq<string> {
    m.GetOr([])
  }

  /** RFC 6902 section 4.6, except that an absent list equals null. */
  predicate TestHolds(m: Member, path: Pointer, expected: Value) {
    match (path, expected)
    case (Whole, Null) => m.None?
    case (Whole, Names(names)) => m == Some(names)
    case (At(i), Name(name)) => m.Some? && i < |m.value| && m.value[i] == name
    case _ => false
  }

  /** One operation of RFC 6902 sections 4.1, 4.2 and 4.6; `None` is a failed operation. */
  function ApplyOperation(m: Member, op: Operation): Option<Member> {
    match op
    case Test(path, expected) => if TestHolds(m, path, expected) then Some(m) else None
    case Add(Whole, Names(names)) => Some(Some(names))
    case Add(At(i), Name(name)) =>
      if m.Some? && i <= |m.value| then Some(Some(m.value[..i] + [name] + m.value[i..])) else None
    case Add(End, Name(name)) => if m.Some? then Some(Some(m.value + [name])) else None
    case Add(_, _) => None
    case Remove(Whole) => if m.Some? then Some(None) else None
    case Remove(At(i)) => if m.Some? && i < |m.value| then Some(Some(m.value[..i] + m.value[i + 1..])) else None
    case Remove(End) => None
  }

  /** RFC 6902 section 5: operations in order, and nothing at all if one of them fails. */
  function ApplyPatch(m: Member, patch: Patch): Option<Member>
    decreases |patch|
  {
    if patch == [] then Some(m)
    else
      match ApplyOperation(m, patch[0])
      case None => None
      case Some(m1) => ApplyPatch(m1, patch[1..])
  }

  function PatchList(finalizers: seq<string>, patch: Patch): Option<seq<string>> {
    match ApplyPatch(ToMember(finalizers), patch)
    case None => None
    case Some(m) => Some(FromMember(m))
  }

  // ------------------------------------------------------------ the decision

  datatype FinalizerState = FinalizerState(finalizerIndex: Option<nat>, isDeleting: bool)

  /** The first position of `name`. */
  function IndexOf(names: seq<string>, name: string): (i: Option<nat>)
    ensures i.Some? ==> i.value < |names| && names[i.value] == name && name !in names[..i.value]
    ensures i.None? <==> name !in names
  {
    if names == [] then None
    else if names[0] == name then Some(0)
    else
      match IndexOf(names[1..], name)
      case None => None
      case Some(i) =>
        assert names[..i + 1] == [names[0]] + names[1..][..i];
        Some(i + 1)
  }

  function StateFor(obj: Object, name: string): FinalizerState {
    FinalizerState(IndexOf(obj.finalizers, name), obj.deleting)
  }

  function AddPatch(finalizers: seq<string>, name: string): Patch {
    if finalizers == [] then
      [Test(Whole, Null), Add(Whole, Names([name]))]
    else
      [Test(Whole, Names(finalizers)), Add(End, Name(name))]
  }

  function RemovePatch(index: nat, name: string): Patch {
    [Test(At(index), Name(name)), Remove(At(index))]
  }

  /** What the helper does for one snapshot, up to the awaited calls. */
  datatype Plan =
    | Apply
    | CleanupThen(patch: Patch)
    | Send(patch: Patch)
    | Unnamed
    | AwaitChange

  function PlanFor(obj: Object, name: string): Plan {
    match StateFor(obj, name)
    case FinalizerState(Some(_), false) => Apply
    case FinalizerState(Some(i), true) => if obj.name.Some? then CleanupThen(RemovePatch(i, name)) else Unnamed
    case FinalizerState(None, false) => if obj.name.Some? then Send(AddPatch(obj.finalizers, name)) else Unnamed
    case FinalizerState(None, true) => AwaitChange
  }

  datatype Error = ApplyFailed | CleanupFailed | AddFinalizer | RemoveFinalizer | UnnamedObject

  datatype Action = Requeue | AwaitNext

  /** The helper's result, given how the reconcile call and the patch call came back. */
  function Resolve(plan: Plan, reconciled: Result<Action, ()>, patched: bool): Result<Action, Error> {
    match plan
    case Apply => if reconciled.Ok? then Ok(reconciled.value) else Err(ApplyFailed)
    case CleanupThen(_) =>
      if reconciled.Err? then Err(CleanupFailed)
      else if !patched then Err(RemoveFinalizer)
      else Ok(reconciled.value)
    case Send(_) => if patched then Ok(AwaitNext) else Err(AddFinalizer)
    case Unnamed => Err(UnnamedObject)
    case AwaitChange => Ok(AwaitNext)
  }

  // -------------------------------------------------- what the patches do

  function Without(names: seq<string>, name: string): seq<string> {
    if names == [] then []
    else (if names[0] == name then [] else [names[0]]) + Without(names[1..], name)
  }

  function Occurrences(names: seq<string>, name: string): nat {
    multiset(names)[name]
  }

  lemma {:induction false} WithoutConcat(a: seq<string>, b: seq<string>, name: string)
    ensures Without(a + b, name) == Without(a, name) + Without(b, name)
  {
    if a == [] {
      assert a + b == b;
    } else {
      assert (a + b)[1..] == a[1..] + b;
      WithoutConcat(a[1..], b, name);
    }
  }

  lemma TwoOperations(m: Member, first: Operation, second: Operation)
    ensures ApplyPatch(m, [first, second]) ==
            match ApplyOperation(m, first) { case None => None case Some(m1) => ApplyOperation(m1, second) }
  {
    var patch := [first, second];
    assert patch[1..] == [second] && [second][1..] == [];
    match ApplyOperation(m, first)
    case None =>
    case Some(m1) =>
      assert ApplyPatch(m1, [second]) ==
        match ApplyOperation(m1, second) { case None => None case Some(m2) => ApplyPatch(m2, []) };
  }

  /** The add patch sent for a snapshot: all or nothing, and it fails only if the list changed. */
  lemma AddPatchEffect(snapshot: seq<string>, current: seq<string>, name: string)
    ensures PatchList(current, AddPatch(snapshot, name)) ==
            if current == snapshot then Some(current + [name]) else None
  {
    var patch := AddPatch(snapshot, name);
    var m := ToMember(current);
    TwoOperations(m, patch[0], patch[1]);
    if current == snapshot {
      assert [] + [name] == [name];
      assert ApplyOperation(m, patch[1]) == Some(Some(current + [name]));
    }
  }

  lemma RemoveOutcome(current: seq<string>, index: nat, name: string)
    ensures PatchList(current, RemovePatch(index, name)) ==
            if index < |current| && current[index] == name then Some(current[..index] + current[index + 1..]) else None
  {
    var patch := RemovePatch(index, name);
    var m := ToMember(current);
    TwoOperations(m, patch[0], patch[1]);
    if index < |current| && current[index] == name {
      assert ApplyOperation(m, patch[1]) == Some(Some(current[..index] + current[index + 1..]));
    }
  }

  lemma WithoutMiddle(a: seq<string>, b: seq<string>, name: string)
    ensures Without(a + ([name] + b), name) == Without(a + b, name)
  {
    WithoutConcat(a, [name] + b, name);
    WithoutConcat([name], b, name);
    WithoutConcat(a, b, name);
    assert Without([name], name) == [];
  }

  lemma SplitAt(names: seq<string>, i: nat)
    requires i < |names|
    ensures names == names[..i] + ([names[i]] + names[i + 1..])
  {
  }

  /** The remove patch: it deletes exactly the occurrence it tested, and keeps everyone else in order. */
  lemma RemovePatchEffect(current: seq<string>, index: nat, name: string)
    ensures
      var r := PatchList(current, RemovePatch(index, name));
      && (r.Some? <==> index < |current| && current[index] == name)
      && (r.Some? ==>
            && r.value == current[..index] + current[index + 1..]
            && Without(r.value, name) == Without(current, name)
            && Occurrences(r.value, name) == Occurrences(current, name) - 1)
  {
    RemoveOutcome(current, index, name);
    if index < |current| && current[index] == name {
      SplitAt(current, index);
      WithoutMiddle(current[..index], current[index + 1..], name);
    }
  }

  /** A remove patch made from a snapshot fails only if the list changed since. */
  lemma RemoveFailsOnlyOnChange(snapshot: Object, current: seq<string>, name: string)
    requires PlanFor(snapshot, name).CleanupThen?
    ensures PatchList(current, PlanFor(snapshot, name).patch).None? ==> current != snapshot.finalizers
  {
    RemovePatchEffect(current, IndexOf(snapshot.finalizers, name).value, name);
  }
}
