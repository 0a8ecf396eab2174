/**
 What the finalizer helper reports, in every run: each look at the object, each finished reconcile call
 and each answered patch, told by the object's own fields and the outcome of the call.
 */
module FinalizerReports {
  import opened Common
  import opened Finalizer
  import opened FinalizerProtocol

  /** The object the reconciler was handed has our finalizer. */
  predicate HeldAt(c: Config, s: State, at: nat)
    requires at < |s.history|
  {
    c.name in s.history[at].finalizers
  }

  /** The server's list is still what the patch made from version `at` tests for. */
  ghost predicate StillMatches(c: Config, s: State, at: nat)
    requires at < |s.history|
  {
    var mine, now := s.history[at].finalizers, Current(s).finalizers;
    && s.removedAt.None?
    && if HeldAt(c, s, at) then exists i | 0 <= i < |mine| && i < |now| :: now[i] == c.name && mine[i] == c.name && c.name !in mine[..i]
       else now == mine
  }

  /** A patch was applied and its answer arrived. */
  ghost predicate Patched(c: Config, s: State, r: Reconciler, refused: bool)
    requires Busy(s, r, true)
  {
    !refused && StillMatches(c, s, s.phases[r].at)
  }

  function Unless(failed: bool, error: Error, action: Action): Result<Action, Error> {
    if failed then Err(error) else Ok(action)
  }

  /** What the first look at version `at` puts in the log. */
  function LookReports(c: Config, s: State, r: Reconciler, at: nat): seq<Entry>
    requires at < |s.history|
  {
    var obj := s.history[at];
    if HeldAt(c, s, at) && !obj.deleting then [ApplyStarted(r, at)]
    else if !HeldAt(c, s, at) && obj.deleting then [Returned(r, at, Ok(AwaitNext))]
    else if obj.name.None? then [Returned(r, at, Err(UnnamedObject))]
    else if HeldAt(c, s, at) then [CleanupStarted(r, at)]
    else []
  }

  /** What the end of a reconcile call puts in the log: a failed Apply or Cleanup is reported as such. */
  function CallReports(s: State, r: Reconciler, result: Result<Action, ()>): seq<Entry>
    requires Busy(s, r, false)
  {
    var at := s.phases[r].at;
    match s.phases[r]
    case Applying(_) => [Returned(r, at, if result.Ok? then Ok(result.value) else Err(ApplyFailed))]
    case _ => if result.Ok? then [CleanupSucceeded(r, at)] else [Returned(r, at, Err(CleanupFailed))]
  }

  /** What the end of a patch call puts in the log; the action of a Cleanup is kept until then. */
  function PatchReports(c: Config, s: State, r: Reconciler, failed: bool): seq<Entry>
    requires Busy(s, r, true)
  {
    var at := s.phases[r].at;
    [Returned(r, at, if HeldAt(c, s, at) then Unless(failed, RemoveFinalizer, s.phases[r].action) else Unless(failed, AddFinalizer, AwaitNext))]
  }

  lemma PlanByFields(c: Config, obj: Object)
    ensures
      match PlanFor(obj, c.name)
      case Apply => c.name in obj.finalizers && !obj.deleting
      case CleanupThen(_) => c.name in obj.finalizers && obj.deleting && obj.name.Some?
      case Send(_) => c.name !in obj.finalizers && !obj.deleting && obj.name.Some?
      case Unnamed => obj.name.None? && (c.name in obj.finalizers <==> obj.deleting)
      case AwaitChange => c.name !in obj.finalizers && obj.deleting
  {
  }

  /** Main result: in every run, what each look at the object reports. */
  lemma LooksReported(c: Config, obj: Object, steps: seq<Step>, r: Reconciler, at: nat)
    requires Occurrences(obj.finalizers, c.name) <= 1 && Run(c, obj, steps + [Observe(r, at)]).Some?
    ensures
      var s, s1 := Run(c, obj, steps), Run(c, obj, steps + [Observe(r, at)]).value;
      s.Some? && at < |s.value.history| && s1.log == s.value.log + LookReports(c, s.value, r, at)
  {
    LastStep(c, obj, steps, Observe(r, at));
    var s := Run(c, obj, steps).value;
    PlanByFields(c, s.history[at]);
    assert s.log + [] == s.log;
  }

  lemma LastStep(c: Config, obj: Object, steps: seq<Step>, step: Step)
    requires Run(c, obj, steps + [step]).Some?
    ensures Run(c, obj, steps).Some? && Run(c, obj, steps + [step]) == Next(c, Run(c, obj, steps).value, step)
  {
    assert (steps + [step])[..|steps|] == steps;
  }

  /** Main result: in every run, what the end of an Apply or a Cleanup reports. */
  lemma CallsReported(c: Config, obj: Object, steps: seq<Step>, r: Reconciler, result: Result<Action, ()>)
    requires Occurrences(obj.finalizers, c.name) <= 1 && Run(c, obj, steps + [ReconcileDone(r, result)]).Some?
    ensures
      var s, s1 := Run(c, obj, steps), Run(c, obj, steps + [ReconcileDone(r, result)]).value;
      s.Some? && Busy(s.value, r, false) && s1.log == s.value.log + CallReports(s.value, r, result)
  {
    LastStep(c, obj, steps, ReconcileDone(r, result));
    RunInv(c, obj, steps);
    CallStep(c, Run(c, obj, steps).value, r, result);
  }

  lemma CallStep(c: Config, s: State, r: Reconciler, result: Result<Action, ()>)
    requires Busy(s, r, false) && PhaseOk(c, s.history, s.log, s.phases[r])
    ensures ReconcileReturns(c, s, r, result).log == s.log + CallReports(s, r, result)
  {
  }

  lemma Accepted(c: Config, s: State, at: nat)
    requires s.history != [] && at < |s.history|
    requires PlanAt(c, s, at).CleanupThen? || PlanAt(c, s, at).Send?
    ensures ServerAccepts(s, PatchOf(PlanAt(c, s, at))).Some? <==> StillMatches(c, s, at)
  {
    var mine, now := s.history[at].finalizers, Current(s).finalizers;
    PlanByFields(c, s.history[at]);
    if HeldAt(c, s, at) {
      var i := IndexOf(mine, c.name).value;
      RemovePatchEffect(now, i, c.name);
      FirstIsUnique(mine, c.name, i);
    } else {
      AddPatchEffect(mine, now, c.name);
    }
  }

  lemma FirstIsUnique(names: seq<string>, name: string, i: nat)
    requires i < |names| && names[i] == name && name !in names[..i]
    ensures forall j | 0 <= j < |names| && names[j] == name && name !in names[..j] :: j == i
  {
  }

  lemma PatchStep(c: Config, s: State, r: Reconciler, refused: bool)
    requires s.history != [] && Busy(s, r, true) && PhaseOk(c, s.history, s.log, s.phases[r])
    ensures PatchReturns(c, s, r, refused).log == s.log + PatchReports(c, s, r, !Patched(c, s, r, refused))
    ensures PatchLost(c, s, r).log == s.log + PatchReports(c, s, r, true)
  {
    Accepted(c, s, s.phases[r].at);
    PlanByFields(c, s.history[s.phases[r].at]);
    WriteKeepsPast(c, s, s.phases[r].at, PatchOf(PlanAt(c, s, s.phases[r].at)));
  }

  lemma WriteKeepsPast(c: Config, s: State, at: nat, patch: Patch)
    requires s.history != [] && at < |s.history|
    ensures ServerPatch(s, patch).log == s.log && ServerPatch(s, patch).phases == s.phases
    ensures at < |ServerPatch(s, patch).history| && ServerPatch(s, patch).history[at] == s.history[at]
  {
  }

  /** Main result: in every run, what an answered patch reports: success exactly if the server took it. */
  lemma AnswersReported(c: Config, obj: Object, steps: seq<Step>, r: Reconciler, refused: bool)
    requires Occurrences(obj.finalizers, c.name) <= 1 && Run(c, obj, steps + [Answer(r, refused)]).Some?
    ensures
      var s, s1 := Run(c, obj, steps), Run(c, obj, steps + [Answer(r, refused)]).value;
      && s.Some? && s.value.history != [] && Busy(s.value, r, true)
      && s1.log == s.value.log + PatchReports(c, s.value, r, !Patched(c, s.value, r, refused))
  {
    LastStep(c, obj, steps, Answer(r, refused));
    RunInv(c, obj, steps);
    PatchStep(c, Run(c, obj, steps).value, r, refused);
  }

  /** Main result: in every run, a patch given up is reported as failed, whatever becomes of it. */
  lemma LossesReported(c: Config, obj: Object, steps: seq<Step>, r: Reconciler)
    requires Occurrences(obj.finalizers, c.name) <= 1 && Run(c, obj, steps + [Lose(r)]).Some?
    ensures
      var s, s1 := Run(c, obj, steps), Run(c, obj, steps + [Lose(r)]).value;
      && s.Some? && s.value.history != [] && Busy(s.value, r, true)
      && s1.log == s.value.log + PatchReports(c, s.value, r, true)
  {
    LastStep(c, obj, steps, Lose(r));
    RunInv(c, obj, steps);
    PatchStep(c, Run(c, obj, steps).value, r, true);
  }
}
