/**
 How the watcher recovers, over whole runs: what brings on a fresh list, and what does not.
 */
module WatcherRecovery {
  import opened Common
  import opened Watcher

  type Item = Result<Event, WatchError>

  predicate IsRestart(item: Item) {
    item.Ok? && item.value.Restarted?
  }

  /** The error event with code 410, Gone. */
  predicate IsGone(item: Item) {
    item == Err(ErrorEvent(410))
  }

  predicate GoneBetween(emitted: seq<Item>, from: int, to: int)
    requires 0 <= from && to <= |emitted|
  {
    exists k | from <= k < to :: IsGone(emitted[k])
  }

  predicate OkBetween(emitted: seq<Item>, from: int, to: int)
    requires 0 <= from && to <= |emitted|
  {
    exists k | from <= k < to :: emitted[k].Ok?
  }

  /** A 410 comes after every success and before the next restart, or before the machine may list again. */
  ghost predicate Fenced(emitted: seq<Item>, state: State) {
    && (forall i, j | 0 <= i < j < |emitted| && emitted[i].Ok? && IsRestart(emitted[j]) :: GoneBetween(emitted, i + 1, j))
    && (state.Empty? ==> forall i | 0 <= i < |emitted| && emitted[i].Ok? :: GoneBetween(emitted, i + 1, |emitted|))
  }

  /** After a 410 the first success is a restart, and until then the machine has nothing to watch. */
  ghost predicate Resumes(emitted: seq<Item>, state: State) {
    && (forall i, j | 0 <= i < j < |emitted| && IsGone(emitted[i]) && emitted[j].Ok? && !IsRestart(emitted[j]) ::
          OkBetween(emitted, i + 1, j))
    && (!state.Empty? ==> forall i | 0 <= i < |emitted| && IsGone(emitted[i]) :: OkBetween(emitted, i + 1, |emitted|))
  }

  lemma BetweenGrows(emitted: seq<Item>, item: Item, from: nat, to: nat)
    requires from <= to <= |emitted|
    ensures GoneBetween(emitted, from, to) ==> GoneBetween(emitted + [item], from, to) && GoneBetween(emitted + [item], from, |emitted| + 1)
    ensures OkBetween(emitted, from, to) ==> OkBetween(emitted + [item], from, to) && OkBetween(emitted + [item], from, |emitted| + 1)
  {
    var grown := emitted + [item];
    if k :| from <= k < to && IsGone(emitted[k]) {
      assert IsGone(grown[k]);
    }
    if k :| from <= k < to && emitted[k].Ok? {
      assert grown[k].Ok?;
    }
  }

  lemma FencedStep(emitted: seq<Item>, state: State, item: Item, next: State)
    requires Fenced(emitted, state)
    requires IsRestart(item) ==> state.Empty?
    requires next.Empty? ==> if state.Empty? then !item.Ok? else IsGone(item)
    ensures Fenced(emitted + [item], next)
  {
    var grown := emitted + [item];
    forall i, j | 0 <= i < j < |grown| && grown[i].Ok? && IsRestart(grown[j]) ensures GoneBetween(grown, i + 1, j) {
      BetweenGrows(emitted, item, i + 1, j);
    }
    if next.Empty? {
      forall i | 0 <= i < |grown| && grown[i].Ok? ensures GoneBetween(grown, i + 1, |grown|) {
        BetweenGrows(emitted, item, i + 1, |emitted|);
        assert IsGone(item) ==> IsGone(grown[|emitted|]);
      }
    }
  }

  lemma ResumesStep(emitted: seq<Item>, state: State, item: Item, next: State)
    requires Resumes(emitted, state)
    requires item.Ok? && !IsRestart(item) ==> !state.Empty?
    requires !next.Empty? ==> if state.Empty? then item.Ok? else !IsGone(item)
    ensures Resumes(emitted + [item], next)
  {
    var grown := emitted + [item];
    forall i, j | 0 <= i < j < |grown| && IsGone(grown[i]) && grown[j].Ok? && !IsRestart(grown[j]) ensures OkBetween(grown, i + 1, j) {
      BetweenGrows(emitted, item, i + 1, j);
    }
    if !next.Empty? {
      forall i | 0 <= i < |grown| && IsGone(grown[i]) ensures OkBetween(grown, i + 1, |grown|) {
        BetweenGrows(emitted, item, i + 1, |emitted|);
        assert item.Ok? ==> grown[|emitted|].Ok?;
      }
    }
  }

  lemma OutputsFit(state: State, reply: Reply)
    requires Fits(state, reply) && StepTrampolined(state, reply).0.Some?
    ensures
      var item, next := StepTrampolined(state, reply).0.value, StepTrampolined(state, reply).1;
      && (state.Empty? ==> (item.Ok? <==> !next.Empty?) && (item.Ok? ==> IsRestart(item)))
      && (!state.Empty? ==> (IsGone(item) <==> next.Empty?) && !IsRestart(item))
  {
  }

  lemma StepFenced(emitted: seq<Item>, state: State, reply: Reply)
    requires Fits(state, reply) && Fenced(emitted, state) && Resumes(emitted, state)
    ensures var (out, next) := StepTrampolined(state, reply);
            Fenced(Emit(emitted, out), next) && Resumes(Emit(emitted, out), next)
  {
    var (out, next) := StepTrampolined(state, reply);
    if out.Some? {
      OutputsFit(state, reply);
      FencedStep(emitted, state, out.value, next);
      ResumesStep(emitted, state, out.value, next);
    } else {
      assert next.Empty? == state.Empty?;
    }
  }

  lemma {:induction false} RunFenced(ws: seq<World>, ms: seq<Move>, n: nat)
    requires IsRun(ws, ms) && n <= |ms|
    ensures Fenced(ws[n].emitted, ws[n].state) && Resumes(ws[n].emitted, ws[n].state)
    decreases n
  {
    if n > 0 {
      RunFenced(ws, ms, n - 1);
      if ms[n - 1].Poll? {
        StepFenced(ws[n - 1].emitted, ws[n - 1].state, ms[n - 1].reply);
      }
    }
  }

  /**
   Main result: in every run, of two successes with no other in between the later one is a fresh list
   if and only if an error event with code 410 was reported between them.
   */
  lemma RelistsExactlyOnGone(ws: seq<World>, ms: seq<Move>, i: nat, j: nat)
    requires IsRun(ws, ms)
    requires var emitted := ws[|ms|].emitted;
             i < j < |emitted| && emitted[i].Ok? && emitted[j].Ok? && !OkBetween(emitted, i + 1, j)
    ensures IsRestart(ws[|ms|].emitted[j]) <==> GoneBetween(ws[|ms|].emitted, i + 1, j)
  {
    RunFenced(ws, ms, |ms|);
    var emitted := ws[|ms|].emitted;
    if k :| i + 1 <= k < j && IsGone(emitted[k]) {
      assert !OkBetween(emitted, k + 1, j);
    }
  }

  /** Main result: in every run, between any two fresh lists the stream has reported a 410. */
  lemma RestartsNeedGone(ws: seq<World>, ms: seq<Move>, i: nat, j: nat)
    requires IsRun(ws, ms)
    requires var emitted := ws[|ms|].emitted; i < j < |emitted| && IsRestart(emitted[i]) && IsRestart(emitted[j])
    ensures GoneBetween(ws[|ms|].emitted, i + 1, j)
  {
    RunFenced(ws, ms, |ms|);
  }

  /** No reply between the two points of the run is an error event with code 410. */
  ghost predicate NoGoneEvent(ms: seq<Move>, n: nat, m: nat)
    requires n <= m <= |ms|
  {
    forall i | n <= i < m && ms[i].Poll? && ms[i].reply.Item? :: ms[i].reply.event != Error(410)
  }

  ghost predicate NoRestartSince(before: seq<Item>, after: seq<Item>) {
    before <= after && forall k | |before| <= k < |after| :: !IsRestart(after[k])
  }

  /** Main result: once listed, the machine never lists again unless a 410 comes as an event. */
  lemma {:induction false} NoGoneNoRestart(ws: seq<World>, ms: seq<Move>, n: nat, m: nat)
    requires IsRun(ws, ms) && n <= m <= |ms| && !ws[n].state.Empty? && NoGoneEvent(ms, n, m)
    ensures !ws[m].state.Empty? && NoRestartSince(ws[n].emitted, ws[m].emitted)
    decreases m - n
  {
    if n < m {
      NoGoneNoRestart(ws, ms, n, m - 1);
    }
  }

  /** Every poll between the two points of the run has its watch request refused, for whatever reason. */
  ghost predicate AllRefused(ms: seq<Move>, n: nat, m: nat)
    requires n <= m <= |ms|
  {
    forall i | n <= i < m && ms[i].Poll? :: ms[i].reply.StartFailed?
  }

  /**
   Main result: while its watch requests are refused the machine keeps asking for the same version,
   reporting each refusal and nothing else.
   */
  lemma {:induction false} RefusedForever(ws: seq<World>, ms: seq<Move>, n: nat, m: nat)
    requires IsRun(ws, ms) && n <= m <= |ms| && AllRefused(ms, n, m)
    requires ws[n].state.InitListed?
    ensures ws[m].state == ws[n].state
    ensures ws[n].emitted <= ws[m].emitted
    ensures forall k | |ws[n].emitted| <= k < |ws[m].emitted| :: ws[m].emitted[k].Err? && ws[m].emitted[k].error.WatchStartFailed?
    decreases m - n
  {
    if n < m {
      RefusedForever(ws, ms, n, m - 1);
    }
  }

  /** What the documentation promises fails here: the version is refused as gone, and asked for again. */
  lemma RefusedAsGone(log: seq<Change>, held: Version, emitted: seq<Item>) returns (w: World, refused: Move)
    requires WellFormed(log) && held <= |log|
    ensures w == World(log, InitListed(held), emitted, held) && refused == Poll(StartFailed(410)) && Possible(w, refused)
    ensures Next(w, refused).state == InitListed(held)
    ensures Next(w, refused).emitted == emitted + [Err(WatchStartFailed(410))]
  {
    w, refused := World(log, InitListed(held), emitted, held), Poll(StartFailed(410));
  }
}
