/**
 The resumable experiment runner: a persisted status per step, and runs that consult it. A run visits
 the selected steps in order; what the outside world does with a step is a parameter of the run.
 */
module Checkpoints {

  datatype Status = Pending | Done | Failed | Skipped

  /** What happens to a step that is started: no file to run, the file is missing, or the process ends. */
  datatype World = NoTarget | TargetMissing | Succeeds | Fails | Raises

  datatype Run = Run(steps: seq<string>, prerequisites: set<string>, world: string -> World, force: bool)

  type Store = map<string, Status>

  function StatusOf(store: Store, step: string): Status {
    if step in store then store[step] else Pending
  }

  predicate IsCompleted(store: Store, step: string) {
    StatusOf(store, step) in {Done, Skipped}
  }

  // ---- One run ----

  datatype Visit = Visit(store: Store, executed: bool, aborted: bool)

  /** One turn of the phase loop: the prerequisites come first, then the checkpoint. */
  function VisitStep(store: Store, run: Run, step: string): Visit {
    if step !in run.prerequisites then Visit(store[step := Skipped], false, false)
    else if IsCompleted(store, step) && !run.force then Visit(store, false, false)
    else
      match run.world(step)
      case NoTarget => Visit(store[step := Skipped], false, false)
      case TargetMissing => Visit(store[step := Failed], false, false)
      case Succeeds => Visit(store[step := Done], true, false)
      case Fails => Visit(store[step := Failed], true, false)
      case Raises => Visit(store, true, true)
  }

  /** The end of a run: the store, the steps executed in order, and whether an exception ended it early. */
  datatype Trace = Trace(store: Store, executed: seq<string>, aborted: bool)

  function RunFrom(store: Store, run: Run, i: nat): Trace
    requires i <= |run.steps|
    decreases |run.steps| - i
  {
    if i == |run.steps| then Trace(store, [], false)
    else
      var v := VisitStep(store, run, run.steps[i]);
      var now := if v.executed then [run.steps[i]] else [];
      if v.aborted then Trace(v.store, now, true)
      else
        var rest := RunFrom(v.store, run, i + 1);
        Trace(rest.store, now + rest.executed, rest.aborted)
  }

  /** The state file, and the loop that updates it after every step. */
  class Checkpoint {
    var store: Store

    constructor ()
      ensures store == map[]
    {
      store := map[];
    }

    method RunStep(run: Run, step: string) returns (executed: bool, aborted: bool)
      modifies this
      ensures Visit(store, executed, aborted) == VisitStep(old(store), run, step)
    {
      if step !in run.prerequisites {
        store := store[step := Skipped];
        return false, false;
      }
      if IsCompleted(store, step) && !run.force {
        return false, false;
      }
      match run.world(step)
      case NoTarget =>
        store := store[step := Skipped];
        return false, false;
      case TargetMissing =>
        store := store[step := Failed];
        return false, false;
      case Succeeds =>
        store := store[step := Done];
        return true, false;
      case Fails =>
        store := store[step := Failed];
        return true, false;
      case Raises =>
        return true, true;
    }

    method RunPhase(run: Run) returns (executed: seq<string>, aborted: bool)
      modifies this
      ensures Trace(store, executed, aborted) == RunFrom(old(store), run, 0)
    {
      executed := [];
      ghost var all := RunFrom(store, run, 0);
      for i := 0 to |run.steps|
        invariant all == Resumed(executed, RunFrom(store, run, i))
      {
        ResumeStep(executed, store, run, i);
        var ran, raised := RunStep(run, run.steps[i]);
        if ran {
          executed := executed + [run.steps[i]];
        }
        if raised {
          return executed, true;
        }
      }
      aborted := false;
    }
  }

  /** A trace with what was executed before it. */
  function Resumed(executed: seq<string>, rest: Trace): Trace {
    Trace(rest.store, executed + rest.executed, rest.aborted)
  }

  lemma ResumeStep(executed: seq<string>, store: Store, run: Run, i: nat)
    requires i < |run.steps|
    ensures var v := VisitStep(store, run, run.steps[i]);
            var now := if v.executed then executed + [run.steps[i]] else executed;
            Resumed(executed, RunFrom(store, run, i)) ==
            if v.aborted then Trace(v.store, now, true) else Resumed(now, RunFrom(v.store, run, i + 1))
  {
    var v := VisitStep(store, run, run.steps[i]);
    var rest := RunFrom(v.store, run, i + 1).executed;
    assert executed + ([run.steps[i]] + rest) == executed + [run.steps[i]] + rest;
    assert executed + ([] + rest) == executed + rest;
  }

  // ---- Completed is forever ----

  lemma VisitKeeps(store: Store, run: Run, step: string, other: string)
    requires !run.force && IsCompleted(store, other)
    ensures var v := VisitStep(store, run, step);
            IsCompleted(v.store, other) && (v.executed ==> step != other)
  {
  }

  lemma {:induction false} RunKeeps(store: Store, run: Run, i: nat, step: string)
    requires i <= |run.steps| && !run.force && IsCompleted(store, step)
    ensures IsCompleted(RunFrom(store, run, i).store, step) && step !in RunFrom(store, run, i).executed
    decreases |run.steps| - i
  {
    if i < |run.steps| {
      VisitKeeps(store, run, run.steps[i], step);
      var v := VisitStep(store, run, run.steps[i]);
      if !v.aborted {
        RunKeeps(v.store, run, i + 1, step);
      }
    }
  }

  /** The store after the first `n` of a sequence of runs that start from nothing. */
  function After(runs: seq<Run>, n: nat): Store
    requires n <= |runs|
  {
    if n == 0 then map[] else RunFrom(After(runs, n - 1), runs[n - 1], 0).store
  }

  /** The steps that the `n`-th run executes. */
  function Executed(runs: seq<Run>, n: nat): seq<string>
    requires n < |runs|
  {
    RunFrom(After(runs, n), runs[n], 0).executed
  }

  ghost predicate Unforced(runs: seq<Run>) {
    forall i :: 0 <= i < |runs| ==> !runs[i].force
  }

  lemma {:induction false} CompletedStays(runs: seq<Run>, m: nat, n: nat, step: string)
    requires m <= n <= |runs| && Unforced(runs) && IsCompleted(After(runs, m), step)
    ensures IsCompleted(After(runs, n), step)
    decreases n
  {
    if m < n {
      CompletedStays(runs, m, n - 1, step);
      RunKeeps(After(runs, n - 1), runs[n - 1], 0, step);
    }
  }

  /**
   Over every sequence of runs without --force: a step that was recorded done is never executed again,
   even if later runs lose its prerequisites.
   */
  lemma DoneNeverAgain(runs: seq<Run>, m: nat, n: nat, step: string)
    requires m <= n < |runs| && Unforced(runs) && StatusOf(After(runs, m), step) == Done
    ensures step !in Executed(runs, n) && StatusOf(After(runs, n), step) in {Done, Skipped}
  {
    CompletedStays(runs, m, n, step);
    RunKeeps(After(runs, n), runs[n], 0, step);
  }

  lemma {:induction false} RunKeepsSkipped(store: Store, run: Run, i: nat, step: string)
    requires i <= |run.steps| && !run.force && StatusOf(store, step) == Skipped
    ensures StatusOf(RunFrom(store, run, i).store, step) == Skipped
    decreases |run.steps| - i
  {
    if i < |run.steps| {
      var v := VisitStep(store, run, run.steps[i]);
      if !v.aborted {
        RunKeepsSkipped(v.store, run, i + 1, step);
      }
    }
  }

  lemma {:induction false} SkippedStays(runs: seq<Run>, m: nat, n: nat, step: string)
    requires m <= n <= |runs| && Unforced(runs) && StatusOf(After(runs, m), step) == Skipped
    ensures StatusOf(After(runs, n), step) == Skipped
    decreases n
  {
    if m < n {
      SkippedStays(runs, m, n - 1, step);
      RunKeepsSkipped(After(runs, n - 1), runs[n - 1], 0, step);
    }
  }

  /** A step that was skipped, if only because a prerequisite was missing at the time, stays skipped and is never executed. */
  lemma SkippedNeverRuns(runs: seq<Run>, m: nat, n: nat, step: string)
    requires m <= n < |runs| && Unforced(runs) && StatusOf(After(runs, m), step) == Skipped
    ensures step !in Executed(runs, n) && StatusOf(After(runs, n + 1), step) == Skipped
  {
    SkippedStays(runs, m, n + 1, step);
    SkippedStays(runs, m, n, step);
    RunKeeps(After(runs, n), runs[n], 0, step);
  }

  // ---- Exactly when a step is executed ----

  /** The step is started if the run gets to it. */
  ghost predicate Starts(store: Store, run: Run, step: string) {
    && step in run.prerequisites && (run.force || !IsCompleted(store, step))
    && run.world(step) in {Succeeds, Fails, Raises}
  }

  /** The step at position `j` is one that the run would start and that raises. */
  ghost predicate RaisesAt(store: Store, run: Run, j: nat)
    requires j < |run.steps|
  {
    Starts(store, run, run.steps[j]) && run.world(run.steps[j]) == Raises
  }

  /** No step before position `k` raises; all of it read from the store before the run. */
  ghost predicate GetsTo(store: Store, run: Run, k: nat)
    requires k <= |run.steps|
  {
    forall j :: 0 <= j < k ==> !RaisesAt(store, run, j)
  }

  /** The steps before position `k` let the run go on. */
  ghost predicate Reaches(store: Store, run: Run, i: nat, k: nat)
    requires i <= k <= |run.steps|
    decreases k - i
  {
    i == k || (var v := VisitStep(store, run, run.steps[i]); !v.aborted && Reaches(v.store, run, i + 1, k))
  }

  /** A run goes on as long as no earlier step is started that raises. */
  lemma {:induction false} ReachesIff(store: Store, run: Run, i: nat, k: nat)
    requires i <= k <= |run.steps| && NoRepeats(run)
    ensures Reaches(store, run, i, k) <==>
            forall j :: i <= j < k ==> !RaisesAt(store, run, j)
    decreases k - i
  {
    if i < k {
      var v := VisitStep(store, run, run.steps[i]);
      ReachesIff(v.store, run, i + 1, k);
      forall j | i < j < k ensures RaisesAt(v.store, run, j) <==> RaisesAt(store, run, j) {
        StartsUnaffected(store, run, run.steps[i], run.steps[j]);
      }
      assert v.aborted <==> RaisesAt(store, run, i);
    }
  }

  ghost predicate NoRepeats(run: Run) {
    forall i, j :: 0 <= i < j < |run.steps| ==> run.steps[i] != run.steps[j]
  }

  lemma StartsUnaffected(store: Store, run: Run, step: string, other: string)
    requires step != other
    ensures Starts(VisitStep(store, run, step).store, run, other) <==> Starts(store, run, other)
  {
  }

  lemma ExecutedHere(store: Store, run: Run, k: nat)
    requires k < |run.steps| && NoRepeats(run)
    ensures run.steps[k] in RunFrom(store, run, k).executed <==> Starts(store, run, run.steps[k])
  {
    var v := VisitStep(store, run, run.steps[k]);
    assert v.executed <==> Starts(store, run, run.steps[k]);
    if !v.aborted {
      ExecutedLater(v.store, run, k + 1, run.steps[k]);
    }
  }

  lemma {:induction false} ExecutedMember(store: Store, run: Run, i: nat, k: nat)
    requires i <= k < |run.steps| && NoRepeats(run)
    ensures run.steps[k] in RunFrom(store, run, i).executed <==> Reaches(store, run, i, k) && Starts(store, run, run.steps[k])
    decreases k - i
  {
    if i == k {
      ExecutedHere(store, run, k);
    } else {
      var v := VisitStep(store, run, run.steps[i]);
      assert run.steps[i] != run.steps[k];
      StartsUnaffected(store, run, run.steps[i], run.steps[k]);
      if !v.aborted {
        ExecutedMember(v.store, run, i + 1, k);
      }
    }
  }

  lemma {:induction false} ExecutedLater(store: Store, run: Run, i: nat, step: string)
    requires i <= |run.steps| && forall j :: i <= j < |run.steps| ==> run.steps[j] != step
    ensures step !in RunFrom(store, run, i).executed
    decreases |run.steps| - i
  {
    if i < |run.steps| {
      var v := VisitStep(store, run, run.steps[i]);
      if !v.aborted {
        ExecutedLater(v.store, run, i + 1, step);
      }
    }
  }

  /**
   The `n`-th run executes a selected step if and only if its prerequisites are met, it is not recorded
   done or skipped, there is a file to run, and no step before it ends the run with an exception.
   */
  lemma ExecutedIff(runs: seq<Run>, n: nat, k: nat)
    requires n < |runs| && k < |runs[n].steps| && NoRepeats(runs[n])
    ensures var run, store := runs[n], After(runs, n);
            run.steps[k] in Executed(runs, n) <==> Starts(store, run, run.steps[k]) && GetsTo(store, run, k)
  {
    ExecutedMember(After(runs, n), runs[n], 0, k);
    ReachesIff(After(runs, n), runs[n], 0, k);
  }

  /** A step last recorded failed is executed by the next run that selects it with its prerequisites met. */
  lemma FailedIsRetried(runs: seq<Run>, n: nat, k: nat)
    requires n < |runs| && k < |runs[n].steps| && NoRepeats(runs[n])
    requires StatusOf(After(runs, n), runs[n].steps[k]) == Failed && runs[n].steps[k] in runs[n].prerequisites
    requires runs[n].world(runs[n].steps[k]) in {Succeeds, Fails, Raises}
    requires forall j :: 0 <= j < k ==> runs[n].world(runs[n].steps[j]) != Raises
    ensures runs[n].steps[k] in Executed(runs, n)
  {
    ExecutedIff(runs, n, k);
  }

  // ---- The record after a run ----

  /** What a run that gets to the step makes of its status. */
  function Outcome(status: Status, run: Run, step: string): Status {
    if step !in run.prerequisites then Skipped
    else if status in {Done, Skipped} && !run.force then status
    else
      match run.world(step)
      case NoTarget => Skipped
      case TargetMissing => Failed
      case Succeeds => Done
      case Fails => Failed
      case Raises => status
  }

  /** Steps that the rest of the run does not select keep their status. */
  lemma {:induction false} OthersUntouched(store: Store, run: Run, i: nat, step: string)
    requires i <= |run.steps| && forall j :: i <= j < |run.steps| ==> run.steps[j] != step
    ensures StatusOf(RunFrom(store, run, i).store, step) == StatusOf(store, step)
    decreases |run.steps| - i
  {
    if i < |run.steps| {
      var v := VisitStep(store, run, run.steps[i]);
      if !v.aborted {
        OthersUntouched(v.store, run, i + 1, step);
      }
    }
  }

  lemma {:induction false} RecordFrom(store: Store, run: Run, i: nat, k: nat)
    requires i <= k < |run.steps| && NoRepeats(run)
    ensures var step := run.steps[k];
            StatusOf(RunFrom(store, run, i).store, step) ==
            if Reaches(store, run, i, k) then Outcome(StatusOf(store, step), run, step) else StatusOf(store, step)
    decreases k - i
  {
    var v, step := VisitStep(store, run, run.steps[i]), run.steps[k];
    if i == k {
      assert StatusOf(v.store, step) == Outcome(StatusOf(store, step), run, step);
      if !v.aborted {
        OthersUntouched(v.store, run, i + 1, step);
      }
    } else if !v.aborted {
      RecordFrom(v.store, run, i + 1, k);
    }
  }

  lemma {:induction false} AbortedFrom(store: Store, run: Run, i: nat)
    requires i <= |run.steps|
    ensures RunFrom(store, run, i).aborted <==> !Reaches(store, run, i, |run.steps|)
    decreases |run.steps| - i
  {
    if i < |run.steps| {
      var v := VisitStep(store, run, run.steps[i]);
      if !v.aborted {
        AbortedFrom(v.store, run, i + 1);
      }
    }
  }

  /**
   A whole run, forced or not, ended early or not, read from the store before it: every selected step that no
   raising step stands before gets its outcome, all other steps keep their status, and the run ends early iff
   some selected step would be started and raises. No step's record depends on what the run did to another.
   */
  lemma RecordAfter(store: Store, run: Run, step: string)
    requires NoRepeats(run)
    ensures var t := RunFrom(store, run, 0);
            && (forall k :: 0 <= k < |run.steps| && run.steps[k] == step ==>
                  StatusOf(t.store, step) ==
                  if GetsTo(store, run, k) then Outcome(StatusOf(store, step), run, step) else StatusOf(store, step))
            && (step !in run.steps ==> StatusOf(t.store, step) == StatusOf(store, step))
            && (t.aborted <==> !GetsTo(store, run, |run.steps|))
  {
    forall k | 0 <= k < |run.steps| && run.steps[k] == step
      ensures StatusOf(RunFrom(store, run, 0).store, step) ==
              if GetsTo(store, run, k) then Outcome(StatusOf(store, step), run, step) else StatusOf(store, step)
    {
      RecordFrom(store, run, 0, k);
      ReachesIff(store, run, 0, k);
    }
    if step !in run.steps {
      OthersUntouched(store, run, 0, step);
    }
    AbortedFrom(store, run, 0);
    ReachesIff(store, run, 0, |run.steps|);
  }

  // ---- When a success stays on record ----

  /** The run gets to the step and finds its prerequisite missing. */
  ghost predicate MissesPrerequisite(store: Store, run: Run, step: string) {
    step !in run.prerequisites && exists k :: 0 <= k < |run.steps| && run.steps[k] == step && GetsTo(store, run, k)
  }

  lemma RecordOfDone(store: Store, run: Run, step: string)
    requires NoRepeats(run) && !run.force && StatusOf(store, step) == Done
    ensures StatusOf(RunFrom(store, run, 0).store, step) == if MissesPrerequisite(store, run, step) then Skipped else Done
  {
    RecordAfter(store, run, step);
  }

  ghost predicate NoneMisses(runs: seq<Run>, m: nat, n: nat, step: string)
    requires n <= |runs|
  {
    forall r :: m <= r < n ==> !MissesPrerequisite(After(runs, r), runs[r], step)
  }

  /**
   Over every sequence of runs without --force: a step recorded done after `m` runs is recorded done after `n`
   iff none of the runs between gets to it with its prerequisite missing; otherwise it is recorded skipped.
   */
  lemma {:induction false} DoneStaysIff(runs: seq<Run>, m: nat, n: nat, step: string)
    requires m <= n <= |runs| && Unforced(runs) && (forall r :: m <= r < n ==> NoRepeats(runs[r]))
    requires StatusOf(After(runs, m), step) == Done
    ensures StatusOf(After(runs, n), step) == if NoneMisses(runs, m, n, step) then Done else Skipped
    decreases n
  {
    if m < n {
      DoneStaysIff(runs, m, n - 1, step);
      if NoneMisses(runs, m, n - 1, step) {
        RecordOfDone(After(runs, n - 1), runs[n - 1], step);
      } else {
        RunKeepsSkipped(After(runs, n - 1), runs[n - 1], 0, step);
      }
    }
  }
}
