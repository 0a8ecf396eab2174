/**
 Progress of the finalizer protocol: a reconciler that is left alone with the current version takes
 its finalizer through its whole life, from whatever state the others have brought the server into.
 */
module FinalizerProgress {
  import opened Common
  import opened Finalizer
  import opened FinalizerProtocol

  /** The state after some more steps, if every one of them is possible. */
  function Continue(c: Config, s: State, steps: seq<Step>): Option<State>
    decreases |steps|
  {
    if steps == [] then Some(s)
    else
      match Next(c, s, steps[0])
      case None => None
      case Some(s1) => Continue(c, s1, steps[1..])
  }

  lemma OneMore(c: Config, s: State, step: Step, rest: seq<Step>)
    requires Next(c, s, step).Some?
    ensures Continue(c, s, [step] + rest) == Continue(c, Next(c, s, step).value, rest)
  {
    assert ([step] + rest)[1..] == rest;
  }

  lemma ThreeSteps(c: Config, s: State, a: Step, b: Step, d: Step, s1: State, s2: State)
    requires Next(c, s, a) == Some(s1) && Next(c, s1, b) == Some(s2) && Next(c, s2, d).Some?
    ensures Continue(c, s, [a, b, d]) == Next(c, s2, d)
  {
    OneMore(c, s, a, [b, d]);
    OneMore(c, s1, b, [d]);
    OneMore(c, s2, d, []);
    assert [a] + [b, d] == [a, b, d] && [b] + [d] == [b, d] && [d] + [] == [d];
  }

  /** A reconciler looks at the version the server has right now. */
  function LookNow(s: State, r: Reconciler): Step
    requires s.history != []
  {
    Observe(r, |s.history| - 1)
  }

  lemma WithoutAbsent(names: seq<string>, name: string)
    requires name !in names
    ensures Without(names, name) == names
  {
    if names != [] {
      WithoutAbsent(names[1..], name);
    }
  }

  /** The patch of a current snapshot is accepted, and leaves the list without our name. */
  lemma CurrentRemoval(finalizers: seq<string>, obj: Object, name: string)
    requires PlanFor(obj, name).CleanupThen? && obj.finalizers == finalizers && Occurrences(finalizers, name) <= 1
    ensures PatchList(finalizers, PlanFor(obj, name).patch) == Some(Without(finalizers, name))
  {
    var i := IndexOf(finalizers, name).value;
    RemovePatchEffect(finalizers, i, name);
    var left := PatchList(finalizers, RemovePatch(i, name)).value;
    OccursIff(left, name);
    WithoutAbsent(left, name);
  }

  /**
   Main result: from every reachable state with our finalizer on a deleting object, one undisturbed
   pass with a successful Cleanup takes our finalizer off, keeps all others in order, reports
   success, and removes the object if no other finalizer is left.
   */
  lemma CleanupCompletes(c: Config, s: State, r: Reconciler, action: Action)
    requires Inv(c, s) && s.removedAt.None?
    requires Current(s).deleting && Current(s).name.Some? && c.name in Current(s).finalizers
    requires Next(c, s, LookNow(s, r)).Some?
    ensures
      var at := |s.history| - 1;
      var left := Without(Current(s).finalizers, c.name);
      var done := Continue(c, s, [LookNow(s, r), ReconcileDone(r, Ok(action)), Answer(r, false)]);
      && done.Some?
      && done.value.history != [] && Current(done.value).finalizers == left
      && (done.value.removedAt.Some? <==> left == [])
      && done.value.log == s.log + [CleanupStarted(r, at), CleanupSucceeded(r, at), Returned(r, at, Ok(action))]
  {
    var at := |s.history| - 1;
    var s1, s2 := CleanupSent(c, s, r, action);
    CurrentRemoval(Current(s).finalizers, s.history[at], c.name);
    CleanupAnswered(c, s2, r, at, action);
    ThreeSteps(c, s, LookNow(s, r), ReconcileDone(r, Ok(action)), Answer(r, false), s1, s2);
    assert s.log + [CleanupStarted(r, at), CleanupSucceeded(r, at)] + [Returned(r, at, Ok(action))]
        == s.log + [CleanupStarted(r, at), CleanupSucceeded(r, at), Returned(r, at, Ok(action))];
  }

  /** Up to the remove patch, which is still to be answered. */
  lemma CleanupSent(c: Config, s: State, r: Reconciler, action: Action) returns (s1: State, s2: State)
    requires s.history != [] && PlanFor(Current(s), c.name).CleanupThen?
    requires Next(c, s, LookNow(s, r)).Some?
    ensures Next(c, s, LookNow(s, r)) == Some(s1) && Next(c, s1, ReconcileDone(r, Ok(action))) == Some(s2)
    ensures s2.history == s.history && s2.removedAt == s.removedAt
    ensures r in s2.phases && s2.phases[r] == Sending(|s.history| - 1, action)
    ensures s2.log == s.log + [CleanupStarted(r, |s.history| - 1), CleanupSucceeded(r, |s.history| - 1)]
  {
    var at := |s.history| - 1;
    s1 := Begin(c, s, r, at);
    s2 := ReconcileReturns(c, s1, r, Ok(action));
    assert s.log + [CleanupStarted(r, at)] + [CleanupSucceeded(r, at)] == s.log + [CleanupStarted(r, at), CleanupSucceeded(r, at)];
  }

  lemma CleanupAnswered(c: Config, s: State, r: Reconciler, at: nat, action: Action)
    requires s.history != [] && at == |s.history| - 1 && s.removedAt.None? && Current(s).deleting
    requires r in s.phases && s.phases[r] == Sending(at, action) && PlanFor(Current(s), c.name).CleanupThen?
    requires PatchList(Current(s).finalizers, PlanFor(Current(s), c.name).patch) == Some(Without(Current(s).finalizers, c.name))
    ensures
      var left := Without(Current(s).finalizers, c.name);
      var done := Next(c, s, Answer(r, false));
      && done.Some?
      && done.value.history != [] && Current(done.value).finalizers == left
      && (done.value.removedAt.Some? <==> left == [])
      && done.value.log == s.log + [Returned(r, at, Ok(action))]
  {
  }

  /**
   Main result: from every reachable state with a live object that lacks our finalizer, one
   undisturbed pass appends it, and only the next look at the object starts Apply.
   */
  lemma AdoptionCompletes(c: Config, s: State, r: Reconciler)
    requires Inv(c, s) && s.removedAt.None?
    requires !Current(s).deleting && Current(s).name.Some? && c.name !in Current(s).finalizers
    requires Next(c, s, LookNow(s, r)).Some?
    ensures
      var at := |s.history| - 1;
      var done := Continue(c, s, [LookNow(s, r), Answer(r, false), Observe(r, at + 1)]);
      && done.Some?
      && done.value.history != [] && Current(done.value).finalizers == Current(s).finalizers + [c.name]
      && done.value.removedAt.None?
      && done.value.log == s.log + [Returned(r, at, Ok(AwaitNext)), ApplyStarted(r, at + 1)]
  {
    var at := |s.history| - 1;
    var s1, s2 := AdoptionAnswered(c, s, r);
    ApplyBegins(c, s2, r, at + 1);
    ThreeSteps(c, s, LookNow(s, r), Answer(r, false), Observe(r, at + 1), s1, s2);
    assert s.log + [Returned(r, at, Ok(AwaitNext))] + [ApplyStarted(r, at + 1)]
        == s.log + [Returned(r, at, Ok(AwaitNext)), ApplyStarted(r, at + 1)];
  }

  lemma AdoptionAnswered(c: Config, s: State, r: Reconciler) returns (s1: State, s2: State)
    requires s.history != [] && s.removedAt.None?
    requires !Current(s).deleting && Current(s).name.Some? && c.name !in Current(s).finalizers
    requires Next(c, s, LookNow(s, r)).Some?
    ensures Next(c, s, LookNow(s, r)) == Some(s1) && Next(c, s1, Answer(r, false)) == Some(s2)
    ensures |s2.history| == |s.history| + 1
    ensures Current(s2) == Current(s).(finalizers := Current(s).finalizers + [c.name])
    ensures s2.removedAt.None? && r !in s2.phases && s2.seen == s.seen[r := |s.history| - 1]
    ensures s2.log == s.log + [Returned(r, |s.history| - 1, Ok(AwaitNext))]
  {
    s1 := Begin(c, s, r, |s.history| - 1);
    s2 := PatchReturns(c, s1, r, false);
    AddPatchEffect(Current(s).finalizers, Current(s).finalizers, c.name);
  }

  lemma ApplyBegins(c: Config, s: State, r: Reconciler, at: nat)
    requires s.history != [] && at == |s.history| - 1 && r !in s.phases && (r in s.seen ==> s.seen[r] <= at)
    requires !Current(s).deleting && c.name in Current(s).finalizers
    ensures
      var done := Next(c, s, Observe(r, at));
      && done.Some?
      && done.value.history == s.history && done.value.removedAt == s.removedAt
      && done.value.log == s.log + [ApplyStarted(r, at)]
  {
  }
}
