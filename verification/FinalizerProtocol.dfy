/**
 The finalizer protocol: one object on the server, any number of reconcilers that act
 on possibly stale snapshots, users, and controllers that edit only their own finalizers.
 Requests may be lost, refused, delivered late, or delivered more than once.
 */
module FinalizerProtocol {
  import opened Common
  import opened Finalizer

  type Reconciler = nat

  /** `ordered` are the reconcilers that never look at a version older than one they have seen. */
  datatype Config = Config(name: string, ordered: set<Reconciler>)

  datatype Entry =
    | ApplyStarted(who: Reconciler, at: nat)
    | CleanupStarted(who: Reconciler, at: nat)
    | CleanupSucceeded(who: Reconciler, at: nat)
    | Returned(who: Reconciler, at: nat, result: Result<Action, Error>)

  datatype Phase =
    | Applying(at: nat)
    | Cleaning(at: nat)
    | Sending(at: nat, action: Action)

  /** `history` holds every version of the object; `removedAt` is the length of `log` when it went away. */
  datatype State = State(
    history: seq<Object>,
    removedAt: Option<nat>,
    phases: map<Reconciler, Phase>,
    seen: map<Reconciler, nat>,
    late: set<Patch>,
    log: seq<Entry>)

  datatype Step =
    | UserUpdate
    | UserDelete
    | ForeignEdit(finalizers: seq<string>)
    | Observe(r: Reconciler, at: nat)
    | ReconcileDone(r: Reconciler, result: Result<Action, ()>)
    | Answer(r: Reconciler, refused: bool)
    | Lose(r: Reconciler)
    | Land(patch: Patch)
    | Cancel(r: Reconciler)

  function Current(s: State): Object
    requires s.history != []
  {
    s.history[|s.history| - 1]
  }

  /** Store a new version; a deleting object without finalizers goes away for good. */
  function Write(s: State, finalizers: seq<string>, deleting: bool): State
    requires s.history != []
  {
    if s.removedAt.Some? then s
    else
      var gone := deleting && finalizers == [];
      s.(history := s.history + [Current(s).(finalizers := finalizers, deleting := deleting)],
         removedAt := if gone then Some(|s.log|) else None)
  }

  function ServerAccepts(s: State, patch: Patch): Option<seq<string>>
    requires s.history != []
  {
    if s.removedAt.Some? then None else PatchList(Current(s).finalizers, patch)
  }

  function ServerPatch(s: State, patch: Patch): State
    requires s.history != []
  {
    match ServerAccepts(s, patch)
    case None => s
    case Some(finalizers) => Write(s, finalizers, Current(s).deleting)
  }

  function Log(s: State, e: Entry): State {
    s.(log := s.log + [e])
  }

  function PlanAt(c: Config, s: State, at: nat): Plan
    requires at < |s.history|
  {
    PlanFor(s.history[at], c.name)
  }

  function PatchOf(plan: Plan): Patch {
    if plan.CleanupThen? || plan.Send? then plan.patch else []
  }

  /** A reconciler is handed version `at` and runs the helper up to its first await. */
  function Begin(c: Config, s: State, r: Reconciler, at: nat): State
    requires at < |s.history|
  {
    var seen := s.(seen := s.seen[r := at]);
    match PlanAt(c, s, at)
    case Apply => Log(seen.(phases := s.phases[r := Applying(at)]), ApplyStarted(r, at))
    case CleanupThen(_) => Log(seen.(phases := s.phases[r := Cleaning(at)]), CleanupStarted(r, at))
    case Send(_) => seen.(phases := s.phases[r := Sending(at, AwaitNext)])
    case plan => Log(seen, Returned(r, at, Resolve(plan, Err(()), false)))
  }

  function Quit(s: State, r: Reconciler): State {
    s.(phases := s.phases - {r})
  }

  /** The awaited Apply or Cleanup came back; a successful Cleanup goes on to the remove patch. */
  function ReconcileReturns(c: Config, s: State, r: Reconciler, result: Result<Action, ()>): State
    requires r in s.phases && s.phases[r].at < |s.history|
  {
    var at := s.phases[r].at;
    if s.phases[r].Cleaning? && result.Ok? then
      Log(s.(phases := s.phases[r := Sending(at, result.value)]), CleanupSucceeded(r, at))
    else
      Return(c, s, r, result, false)
  }

  /** The helper returns; `patched` says whether the server answered that it applied the patch. */
  function Return(c: Config, s: State, r: Reconciler, reconciled: Result<Action, ()>, patched: bool): State
    requires r in s.phases && s.phases[r].at < |s.history|
  {
    var at := s.phases[r].at;
    Log(Quit(s, r), Returned(r, at, Resolve(PlanAt(c, s, at), reconciled, patched)))
  }

  function PatchReturns(c: Config, s: State, r: Reconciler, refused: bool): State
    requires r in s.phases && s.phases[r].Sending? && s.phases[r].at < |s.history|
  {
    var patch := PatchOf(PlanAt(c, s, s.phases[r].at));
    var reconciled := Ok(s.phases[r].action);
    if !refused && ServerAccepts(s, patch).Some? then
      Return(c, ServerPatch(s, patch), r, reconciled, true)
    else
      Return(c, s, r, reconciled, false)
  }

  /** The helper gives up on its patch, which may still reach the server later. */
  function PatchLost(c: Config, s: State, r: Reconciler): State
    requires r in s.phases && s.phases[r].Sending? && s.phases[r].at < |s.history|
  {
    var patch := PatchOf(PlanAt(c, s, s.phases[r].at));
    Return(c, s.(late := s.late + {patch}), r, Ok(s.phases[r].action), false)
  }

  predicate Busy(s: State, r: Reconciler, sending: bool) {
    r in s.phases && s.phases[r].Sending? == sending && s.phases[r].at < |s.history|
  }

  /** One step, or `None` where it is not possible. */
  function Next(c: Config, s: State, step: Step): Option<State> {
    if s.history == [] then None
    else
      match step
      case UserUpdate => Some(Write(s, Current(s).finalizers, Current(s).deleting))
      case UserDelete => Some(Write(s, Current(s).finalizers, true))
      case ForeignEdit(finalizers) =>
        if Occurrences(finalizers, c.name) == Occurrences(Current(s).finalizers, c.name)
        then Some(Write(s, finalizers, Current(s).deleting))
        else None
      case Observe(r, at) =>
        if at < |s.history| && r !in s.phases && (r in c.ordered && r in s.seen ==> s.seen[r] <= at)
        then Some(Begin(c, s, r, at))
        else None
      case ReconcileDone(r, result) => if Busy(s, r, false) then Some(ReconcileReturns(c, s, r, result)) else None
      case Answer(r, refused) => if Busy(s, r, true) then Some(PatchReturns(c, s, r, refused)) else None
      case Lose(r) => if Busy(s, r, true) then Some(PatchLost(c, s, r)) else None
      case Land(patch) => if patch in s.late then Some(ServerPatch(s, patch)) else None
      case Cancel(r) => if Busy(s, r, false) then Some(Quit(s, r)) else None
  }

  function Start(obj: Object): State {
    State([obj], None, map[], map[], {}, [])
  }

  /** The state after a whole run, if every step in it is possible. */
  function Run(c: Config, obj: Object, steps: seq<Step>): Option<State> {
    if steps == [] then Some(Start(obj))
    else
      match Run(c, obj, steps[..|steps| - 1])
      case None => None
      case Some(s) => Next(c, s, steps[|steps| - 1])
  }

  // -------------------------------------------------------------- invariant

  ghost predicate Cleaned(log: seq<Entry>) {
    exists i | 0 <= i < |log| :: log[i].CleanupSucceeded?
  }

  ghost predicate EverHeld(c: Config, history: seq<Object>) {
    exists i | 0 <= i < |history| :: c.name in history[i].finalizers
  }

  /** A patch of ours, and if it removes the finalizer then after a successful cleanup. */
  ghost predicate OurPatch(c: Config, log: seq<Entry>, patch: Patch) {
    || (exists list: seq<string> :: c.name !in list && patch == AddPatch(list, c.name))
    || (Cleaned(log) && exists i: nat :: patch == RemovePatch(i, c.name))
  }

  ghost predicate HistoryOk(c: Config, history: seq<Object>) {
    && history != []
    && (forall i | 0 <= i < |history| :: Occurrences(history[i].finalizers, c.name) <= 1)
    && (forall i, j | 0 <= i <= j < |history| :: history[i].deleting ==> history[j].deleting)
  }

  ghost predicate PhaseOk(c: Config, history: seq<Object>, log: seq<Entry>, p: Phase) {
    && p.at < |history|
    && var plan := PlanFor(history[p.at], c.name);
       match p
       case Applying(_) => plan.Apply?
       case Cleaning(_) => plan.CleanupThen?
       case Sending(_, _) => plan.Send? || (plan.CleanupThen? && Cleaned(log))
  }

  ghost predicate LosesAfter(c: Config, history: seq<Object>, at: nat) {
    exists k | at < k < |history| :: c.name !in history[k].finalizers
  }

  ghost predicate EntryOk(c: Config, history: seq<Object>, e: Entry) {
    && e.at < |history|
    && var plan := PlanFor(history[e.at], c.name);
       match e
       case ApplyStarted(_, _) => plan.Apply?
       case CleanupStarted(_, _) => plan.CleanupThen?
       case CleanupSucceeded(_, _) => plan.CleanupThen?
       case Returned(_, at, result) => result.Ok? ==> !plan.Unnamed? && (plan.CleanupThen? ==> LosesAfter(c, history, at))
  }

  /** The finalizer, once held, stays until some cleanup succeeded. */
  ghost predicate HeldUntilCleaned(c: Config, history: seq<Object>, removedAt: Option<nat>, log: seq<Entry>)
    requires history != []
  {
    var current := history[|history| - 1];
    && (EverHeld(c, history) && c.name !in current.finalizers ==> Cleaned(log))
    && (removedAt.Some? ==>
          && removedAt.value <= |log|
          && current.finalizers == []
          && (EverHeld(c, history) ==> Cleaned(log[..removedAt.value])))
  }

  ghost predicate SeenOk(c: Config, s: State) {
    && (forall r | r in s.phases :: r in s.seen && s.seen[r] == s.phases[r].at)
    && (forall j | 0 <= j < |s.log| && s.log[j].who in c.ordered ::
          s.log[j].who in s.seen && s.log[j].at <= s.seen[s.log[j].who])
  }

  predicate IsStart(e: Entry) {
    e.ApplyStarted? || e.CleanupStarted?
  }

  /** The versions an ordered reconciler starts on never go back. */
  ghost predicate StartsInOrder(c: Config, log: seq<Entry>) {
    forall i, j | 0 <= i < j < |log| && log[i].who == log[j].who && log[i].who in c.ordered && IsStart(log[j]) ::
      log[i].at <= log[j].at
  }

  ghost predicate Inv(c: Config, s: State) {
    && HistoryOk(c, s.history)
    && (forall r | r in s.phases :: PhaseOk(c, s.history, s.log, s.phases[r]))
    && (forall patch | patch in s.late :: OurPatch(c, s.log, patch))
    && (forall i | 0 <= i < |s.log| :: EntryOk(c, s.history, s.log[i]))
    && HeldUntilCleaned(c, s.history, s.removedAt, s.log)
    && SeenOk(c, s)
    && StartsInOrder(c, s.log)
  }

  // ------------------------------------------------------------ preservation

  lemma CleanedGrows(log: seq<Entry>, more: seq<Entry>)
    requires Cleaned(log)
    ensures Cleaned(log + more)
  {
    var i :| 0 <= i < |log| && log[i].CleanupSucceeded?;
    assert (log + more)[i].CleanupSucceeded?;
  }

  lemma EntryGrows(c: Config, history: seq<Object>, more: seq<Object>, e: Entry)
    requires EntryOk(c, history, e)
    ensures EntryOk(c, history + more, e)
  {
    if LosesAfter(c, history, e.at) {
      var k :| e.at < k < |history| && c.name !in history[k].finalizers;
      assert c.name !in (history + more)[k].finalizers;
    }
  }

  lemma LogGrows(c: Config, history: seq<Object>, more: seq<Object>, log: seq<Entry>)
    requires forall i | 0 <= i < |log| :: EntryOk(c, history, log[i])
    ensures forall i | 0 <= i < |log| :: EntryOk(c, history + more, log[i])
  {
    forall i | 0 <= i < |log| ensures EntryOk(c, history + more, log[i]) {
      EntryGrows(c, history, more, log[i]);
    }
  }

  lemma HeldGrows(c: Config, history: seq<Object>, obj: Object, log: seq<Entry>)
    requires history != [] && HeldUntilCleaned(c, history, None, log)
    requires c.name in history[|history| - 1].finalizers && c.name !in obj.finalizers ==> Cleaned(log)
    ensures HeldUntilCleaned(c, history + [obj], if obj.deleting && obj.finalizers == [] then Some(|log|) else None, log)
  {
    var grown := history + [obj];
    assert log[..|log|] == log;
    if EverHeld(c, grown) && c.name !in obj.finalizers {
      var i :| 0 <= i < |grown| && c.name in grown[i].finalizers;
      assert history[i] == grown[i];
      assert EverHeld(c, history);
    }
  }

  /** Storing a list that keeps our finalizer, adds it once, or drops it after a cleanup. */
  lemma WriteKeeps(c: Config, s: State, finalizers: seq<string>, deleting: bool)
    requires Inv(c, s)
    requires Occurrences(finalizers, c.name) <= 1
    requires Current(s).deleting ==> deleting
    requires c.name in Current(s).finalizers && c.name !in finalizers ==> Cleaned(s.log)
    ensures Inv(c, Write(s, finalizers, deleting))
  {
    if s.removedAt.None? {
      var obj := Current(s).(finalizers := finalizers, deleting := deleting);
      LogGrows(c, s.history, [obj], s.log);
      HeldGrows(c, s.history, obj, s.log);
    }
  }

  lemma OccursIff(names: seq<string>, name: string)
    ensures name in names <==> Occurrences(names, name) > 0
  {
    assert name in names <==> name in multiset(names);
  }

  lemma PatchKeeps(c: Config, s: State, patch: Patch)
    requires Inv(c, s) && OurPatch(c, s.log, patch)
    ensures Inv(c, ServerPatch(s, patch))
  {
    var accepted := ServerAccepts(s, patch);
    if accepted.Some? {
      var current := Current(s).finalizers;
      OccursIff(current, c.name);
      if list: seq<string> :| c.name !in list && patch == AddPatch(list, c.name) {
        AddPatchEffect(list, current, c.name);
        assert Occurrences(accepted.value, c.name) == 1;
      } else {
        var i: nat :| patch == RemovePatch(i, c.name);
        RemovePatchEffect(current, i, c.name);
      }
      WriteKeeps(c, s, accepted.value, Current(s).deleting);
    }
  }

  lemma LogKeeps(c: Config, s: State, e: Entry)
    requires Inv(c, s) && EntryOk(c, s.history, e)
    requires e.who in s.seen && e.at <= s.seen[e.who]
    requires IsStart(e) ==> e.at == s.seen[e.who]
    ensures Inv(c, Log(s, e))
  {
    var s1 := Log(s, e);
    if Cleaned(s.log) {
      CleanedGrows(s.log, [e]);
    }
    if s.removedAt.Some? {
      assert s1.log[..s.removedAt.value] == s.log[..s.removedAt.value];
    }
  }

  lemma SeeKeeps(c: Config, s: State, r: Reconciler, at: nat)
    requires Inv(c, s) && at < |s.history| && r !in s.phases
    requires r in c.ordered && r in s.seen ==> s.seen[r] <= at
    ensures Inv(c, s.(seen := s.seen[r := at]))
  {
  }

  lemma PhaseKeeps(c: Config, s: State, r: Reconciler, p: Phase)
    requires Inv(c, s) && PhaseOk(c, s.history, s.log, p) && r in s.seen && s.seen[r] == p.at
    ensures Inv(c, s.(phases := s.phases[r := p]))
  {
  }

  lemma LateKeeps(c: Config, s: State, patch: Patch)
    requires Inv(c, s) && OurPatch(c, s.log, patch)
    ensures Inv(c, s.(late := s.late + {patch}))
  {
  }

  lemma BeginKeeps(c: Config, s: State, r: Reconciler, at: nat)
    requires Inv(c, s) && Next(c, s, Observe(r, at)).Some?
    ensures Inv(c, Begin(c, s, r, at))
  {
    SeeKeeps(c, s, r, at);
    var seen := s.(seen := s.seen[r := at]);
    var plan := PlanAt(c, s, at);
    if plan.Apply? {
      PhaseKeeps(c, seen, r, Applying(at));
      LogKeeps(c, seen.(phases := seen.phases[r := Applying(at)]), ApplyStarted(r, at));
    } else if plan.CleanupThen? {
      PhaseKeeps(c, seen, r, Cleaning(at));
      LogKeeps(c, seen.(phases := seen.phases[r := Cleaning(at)]), CleanupStarted(r, at));
    } else if plan.Send? {
      PhaseKeeps(c, seen, r, Sending(at, AwaitNext));
    } else {
      LogKeeps(c, seen, Returned(r, at, Resolve(plan, Err(()), false)));
    }
  }

  lemma QuitKeeps(c: Config, s: State, r: Reconciler)
    requires Inv(c, s)
    ensures Inv(c, Quit(s, r))
  {
  }

  lemma SendingIsOurs(c: Config, s: State, r: Reconciler)
    requires Inv(c, s) && r in s.phases && s.phases[r].Sending?
    ensures OurPatch(c, s.log, PatchOf(PlanAt(c, s, s.phases[r].at)))
  {
    var obj := s.history[s.phases[r].at];
    var plan := PlanFor(obj, c.name);
    if plan.Send? {
      assert c.name !in obj.finalizers && plan.patch == AddPatch(obj.finalizers, c.name);
    } else {
      assert plan.patch == RemovePatch(IndexOf(obj.finalizers, c.name).value, c.name);
    }
  }

  lemma NextKeeps(c: Config, s: State, step: Step)
    requires Inv(c, s) && Next(c, s, step).Some?
    ensures Inv(c, Next(c, s, step).value)
  {
    match step
    case UserUpdate => WriteKeeps(c, s, Current(s).finalizers, Current(s).deleting);
    case UserDelete => WriteKeeps(c, s, Current(s).finalizers, true);
    case ForeignEdit(finalizers) =>
      OccursIff(finalizers, c.name);
      OccursIff(Current(s).finalizers, c.name);
      WriteKeeps(c, s, finalizers, Current(s).deleting);
    case Observe(r, at) => BeginKeeps(c, s, r, at);
    case ReconcileDone(r, result) => ReconcileReturnsKeeps(c, s, r, result);
    case Answer(r, refused) => PatchReturnsKeeps(c, s, r, refused);
    case Lose(r) => PatchLostKeeps(c, s, r);
    case Land(patch) => PatchKeeps(c, s, patch);
    case Cancel(r) => QuitKeeps(c, s, r);
  }

  /** Recording a result needs evidence only when a cleanup branch reports success. */
  lemma ReturnKeeps(c: Config, s: State, r: Reconciler, reconciled: Result<Action, ()>, patched: bool)
    requires Inv(c, s) && r in s.phases
    requires patched && PlanFor(s.history[s.phases[r].at], c.name).CleanupThen? ==> LosesAfter(c, s.history, s.phases[r].at)
    ensures Inv(c, Return(c, s, r, reconciled, patched))
  {
    var at := s.phases[r].at;
    QuitKeeps(c, s, r);
    LogKeeps(c, Quit(s, r), Returned(r, at, Resolve(PlanAt(c, s, at), reconciled, patched)));
  }

  lemma ReconcileReturnsKeeps(c: Config, s: State, r: Reconciler, result: Result<Action, ()>)
    requires Inv(c, s) && Busy(s, r, false)
    ensures Inv(c, ReconcileReturns(c, s, r, result))
  {
    var at := s.phases[r].at;
    assert PhaseOk(c, s.history, s.log, s.phases[r]);
    if s.phases[r].Cleaning? && result.Ok? {
      var e := CleanupSucceeded(r, at);
      LogKeeps(c, s, e);
      assert (s.log + [e])[|s.log|].CleanupSucceeded?;
      PhaseKeeps(c, Log(s, e), r, Sending(at, result.value));
    } else {
      ReturnKeeps(c, s, r, result, false);
    }
  }

  /** An accepted remove patch leaves a version without our finalizer. */
  lemma AcceptedRemoval(c: Config, s: State, obj: Object)
    requires s.history != [] && Occurrences(Current(s).finalizers, c.name) <= 1
    requires PlanFor(obj, c.name).CleanupThen?
    requires ServerAccepts(s, PlanFor(obj, c.name).patch).Some?
    ensures c.name !in ServerAccepts(s, PlanFor(obj, c.name).patch).value
  {
    var i := IndexOf(obj.finalizers, c.name).value;
    RemovePatchEffect(Current(s).finalizers, i, c.name);
    OccursIff(ServerAccepts(s, RemovePatch(i, c.name)).value, c.name);
  }

  lemma PatchReturnsKeeps(c: Config, s: State, r: Reconciler, refused: bool)
    requires Inv(c, s) && Busy(s, r, true)
    ensures Inv(c, PatchReturns(c, s, r, refused))
  {
    var at := s.phases[r].at;
    var obj := s.history[at];
    var patch := PatchOf(PlanFor(obj, c.name));
    if !refused && ServerAccepts(s, patch).Some? {
      SendingIsOurs(c, s, r);
      PatchKeeps(c, s, patch);
      var s1 := ServerPatch(s, patch);
      assert s1.history[at] == obj;
      if PlanFor(obj, c.name).CleanupThen? {
        AcceptedRemoval(c, s, obj);
        assert c.name !in s1.history[|s.history|].finalizers;
        assert LosesAfter(c, s1.history, at);
      }
      ReturnKeeps(c, s1, r, Ok(s.phases[r].action), true);
    } else {
      ReturnKeeps(c, s, r, Ok(s.phases[r].action), false);
    }
  }

  lemma PatchLostKeeps(c: Config, s: State, r: Reconciler)
    requires Inv(c, s) && Busy(s, r, true)
    ensures Inv(c, PatchLost(c, s, r))
  {
    var patch := PatchOf(PlanAt(c, s, s.phases[r].at));
    SendingIsOurs(c, s, r);
    LateKeeps(c, s, patch);
    ReturnKeeps(c, s.(late := s.late + {patch}), r, Ok(s.phases[r].action), false);
  }

  lemma {:induction false} RunInv(c: Config, obj: Object, steps: seq<Step>)
    requires Occurrences(obj.finalizers, c.name) <= 1
    requires Run(c, obj, steps).Some?
    ensures Inv(c, Run(c, obj, steps).value)
  {
    if steps != [] {
      var before := steps[..|steps| - 1];
      RunInv(c, obj, before);
      NextKeeps(c, Run(c, obj, before).value, steps[|steps| - 1]);
    } else {
      assert EverHeld(c, [obj]) ==> c.name in obj.finalizers;
    }
  }

  // ------------------------------------------------------------ main results

  /**
   The guarantee of the helper: if Apply was ever started, by whoever and on however old a
   snapshot, then a Cleanup had succeeded before the server removed the object.
   */
  lemma CleanupBeforeRemoval(c: Config, obj: Object, steps: seq<Step>, i: nat)
    requires Occurrences(obj.finalizers, c.name) <= 1
    requires Run(c, obj, steps).Some?
    requires var s := Run(c, obj, steps).value;
             s.removedAt.Some? && i < |s.log| && s.log[i].ApplyStarted?
    ensures var s := Run(c, obj, steps).value;
            exists j | 0 <= j < s.removedAt.value && j < |s.log| :: s.log[j].CleanupSucceeded?
  {
    RunInv(c, obj, steps);
    var s := Run(c, obj, steps).value;
    assert EntryOk(c, s.history, s.log[i]);
    assert c.name in s.history[s.log[i].at].finalizers;
    assert EverHeld(c, s.history);
    var j :| 0 <= j < |s.log[..s.removedAt.value]| && s.log[..s.removedAt.value][j].CleanupSucceeded?;
    assert s.log[j].CleanupSucceeded?;
  }

  /** Our finalizer never occurs twice, in any version of any run. */
  lemma NeverTwice(c: Config, obj: Object, steps: seq<Step>)
    requires Occurrences(obj.finalizers, c.name) <= 1
    requires Run(c, obj, steps).Some?
    ensures forall v <- Run(c, obj, steps).value.history :: Occurrences(v.finalizers, c.name) <= 1
  {
    RunInv(c, obj, steps);
  }

  /** A reconciler that sees versions in order never starts Apply once it has started Cleanup. */
  lemma NoApplyAfterCleanup(c: Config, obj: Object, steps: seq<Step>, i: nat, j: nat)
    requires Occurrences(obj.finalizers, c.name) <= 1
    requires Run(c, obj, steps).Some?
    requires var log := Run(c, obj, steps).value.log;
             i < |log| && j < |log| && log[i].who == log[j].who && log[i].who in c.ordered
             && log[i].CleanupStarted? && log[j].ApplyStarted?
    ensures j < i
  {
    RunInv(c, obj, steps);
    StartsSeparate(c, Run(c, obj, steps).value, i, j);
  }

  lemma StartsSeparate(c: Config, s: State, i: nat, j: nat)
    requires Inv(c, s)
    requires i < |s.log| && j < |s.log| && s.log[i].who == s.log[j].who && s.log[i].who in c.ordered
    requires s.log[i].CleanupStarted? && s.log[j].ApplyStarted?
    ensures j < i
  {
    assert EntryOk(c, s.history, s.log[i]) && EntryOk(c, s.history, s.log[j]);
    assert s.history[s.log[i].at].deleting && !s.history[s.log[j].at].deleting;
  }

  /** When the helper returns success on a deleting object, the server has stored a list without our finalizer. */
  lemma SuccessMeansRemoved(c: Config, obj: Object, steps: seq<Step>, i: nat)
    requires Occurrences(obj.finalizers, c.name) <= 1
    requires Run(c, obj, steps).Some?
    requires var s := Run(c, obj, steps).value;
             i < |s.log| && s.log[i].Returned? && s.log[i].result.Ok? && s.log[i].at < |s.history|
             && s.history[s.log[i].at].deleting && c.name in s.history[s.log[i].at].finalizers
    ensures var s := Run(c, obj, steps).value; LosesAfter(c, s.history, s.log[i].at)
  {
    RunInv(c, obj, steps);
    ReturnedEvidence(c, Run(c, obj, steps).value, i);
  }

  lemma ReturnedEvidence(c: Config, s: State, i: nat)
    requires Inv(c, s) && i < |s.log| && s.log[i].Returned? && s.log[i].result.Ok?
    requires s.history[s.log[i].at].deleting && c.name in s.history[s.log[i].at].finalizers
    ensures LosesAfter(c, s.history, s.log[i].at)
  {
    assert EntryOk(c, s.history, s.log[i]);
  }
}
