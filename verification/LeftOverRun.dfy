/** How a finished task comes to have an active run left over, and what that leads to. */
module LeftOverRun {
  import opened Options
  import opened Sequences
  import opened TaskStore
  import opened TaskLifecycle

  function Input(id: Id): TaskInput {
    TaskInput(id, "", 1.0, Queued, [""], None, None, None, None, None, None, None)
  }

  function TaskAt(id: Id, status: TaskStatus, error: Option<string>, runs: nat, updatedAt: int): Task {
    Task(id, "", 1.0, status, [""], None, error, None, 0, runs, 0, updatedAt)
  }

  function RunAt(id: Id, runId: Id, status: RunStatus, startedAt: int, updatedAt: int): Run {
    Run(runId, id, status, None, None, startedAt, updatedAt, None)
  }

  const EMPTY := System(Store([], map[], []), Resting, 0, multiset{}, multiset{})

  function OneTask(t: Task, runs: seq<Run>, worker: Worker, clock: int, started: nat, recovered: nat): System {
    System(Store([t.id], map[t.id := t], runs), worker, clock,
           multiset{}[t.id := started], multiset{}[t.id := recovered])
  }

  // A worker at work on a run it has just begun.
  function Begun(id: Id, runId: Id, error: Option<string>, runs: seq<Run>, clock: int, n: nat, r: nat): System {
    OneTask(TaskAt(id, InProgress, error, n, clock), [RunAt(id, runId, RunSelected, clock - 1, clock - 1)] + runs,
            Working(id, runId), clock, n, r)
  }

  function Beginning(id: Id, runId: Id, clock: int, rest: seq<Step>): seq<Step> {
    [Choose(id, clock + 1)] + ([Start(runId, clock + 2)] + ([Begin(clock + 3)] + rest))
  }

  lemma StartGives(id: Id, runId: Id, error: Option<string>, runs: seq<Run>, now: int, n: nat, r: nat,
                   maxFailures: nat)
    requires |runs| < RUN_CAP && RunIdsDistinct(runs) && forall i | 0 <= i < |runs| :: runs[i].id != runId
    ensures var s := OneTask(TaskAt(id, Queued, error, n, now - 2), runs, Chosen(id), now - 1, n, r);
            && Enabled(s, Start(runId, now))
            && Apply(s, Start(runId, now), maxFailures)
               == OneTask(TaskAt(id, Selected, error, n + 1, now), [RunAt(id, runId, RunSelected, now, now)] + runs,
                          Started(id, runId), now, n + 1, r)
  {
    hide StartRun, RunIdsDistinct;
    var s := OneTask(TaskAt(id, Queued, error, n, now - 2), runs, Chosen(id), now - 1, n, r);
    StartRunEffect(s.store, id, runId, now);
    StartRunLength(s.store, id, runId, now);
    var s' := Apply(s, Start(runId, now), maxFailures);
    assert s'.store.runs == [s'.store.runs[0]] + s'.store.runs[1..];
    assert s'.started == multiset{}[id := n + 1];
  }

  lemma BeginGives(id: Id, runId: Id, error: Option<string>, runs: seq<Run>, now: int, n: nat, r: nat,
                   maxFailures: nat)
    requires RunIdsDistinct(runs) && forall i | 0 <= i < |runs| :: runs[i].id != runId
    ensures var s := OneTask(TaskAt(id, Selected, error, n, now - 1),
                             [RunAt(id, runId, RunSelected, now - 1, now - 1)] + runs,
                             Started(id, runId), now - 1, n, r);
            && Enabled(s, Begin(now)) && Apply(s, Begin(now), maxFailures) == Begun(id, runId, error, runs, now, n, r)
  {
    hide UpdateStatus;
    var s := OneTask(TaskAt(id, Selected, error, n, now - 1),
                     [RunAt(id, runId, RunSelected, now - 1, now - 1)] + runs, Started(id, runId), now - 1, n, r);
    UpdateStatusEffect(s.store, id, InProgress, None, None, now);
  }

  lemma BeginningWorks(id: Id, runId: Id, error: Option<string>, runs: seq<Run>, clock: int, n: nat, r: nat,
                       maxFailures: nat, rest: seq<Step>)
    requires |runs| < RUN_CAP && RunIdsDistinct(runs) && forall i | 0 <= i < |runs| :: runs[i].id != runId
    requires CanRun(Begun(id, runId, error, runs, clock + 3, n + 1, r), rest, maxFailures)
    ensures var s := OneTask(TaskAt(id, Queued, error, n, clock), runs, Resting, clock, n, r);
            && CanRun(s, Beginning(id, runId, clock, rest), maxFailures)
            && Trace(s, Beginning(id, runId, clock, rest), maxFailures)
               == Trace(Begun(id, runId, error, runs, clock + 3, n + 1, r), rest, maxFailures)
  {
    hide CanRun, Trace, RunIdsDistinct, UpdateStatus, StartRun;
    var s := OneTask(TaskAt(id, Queued, error, n, clock), runs, Resting, clock, n, r);
    var s1 := Apply(s, Choose(id, clock + 1), maxFailures);
    assert Enabled(s, Choose(id, clock + 1));
    assert s1 == OneTask(TaskAt(id, Queued, error, n, clock), runs, Chosen(id), clock + 1, n, r);
    StartGives(id, runId, error, runs, clock + 2, n, r, maxFailures);
    BeginGives(id, runId, error, runs, clock + 3, n + 1, r, maxFailures);
    hide Enabled, Apply, OneTask, Begun;
    var s2 := Apply(s1, Start(runId, clock + 2), maxFailures);
    TraceCons(s2, Begin(clock + 3), rest, maxFailures);
    TraceCons(s1, Start(runId, clock + 2), [Begin(clock + 3)] + rest, maxFailures);
    TraceCons(s, Choose(id, clock + 1), [Start(runId, clock + 2)] + ([Begin(clock + 3)] + rest), maxFailures);
  }

  // The worker reports progress and dies; a recovery finds its task stale, but not yet its run.
  function Dying(rest: seq<Step>): seq<Step> {
    [Progress(Executing, 4)] + ([Crash(5)] + ([RecoverStale(3, 6)] + rest))
  }

  lemma ProgressGives(id: Id, runId: Id, maxFailures: nat)
    ensures var s := Begun(id, runId, None, [], 3, 1, 0);
            && Enabled(s, Progress(Executing, 4))
            && Apply(s, Progress(Executing, 4), maxFailures)
               == OneTask(TaskAt(id, InProgress, None, 1, 3), [RunAt(id, runId, Executing, 2, 4)],
                          Working(id, runId), 4, 1, 0)
  {
    hide SetRunStatus;
    var s := Begun(id, runId, None, [], 3, 1, 0);
    SetRunStatusEffect(s.store, runId, Executing, 4);
    RunIndexIsExact(s.store, 0);
    assert Apply(s, Progress(Executing, 4), maxFailures).store.runs == [RunAt(id, runId, Executing, 2, 4)];
  }

  lemma RecoveryGives(id: Id, runId: Id, maxFailures: nat)
    ensures var left := [RunAt(id, runId, Executing, 2, 4)];
            var s := OneTask(TaskAt(id, InProgress, None, 1, 3), left, Resting, 5, 1, 0);
            && Enabled(s, RecoverStale(3, 6))
            && Apply(s, RecoverStale(3, 6), maxFailures)
               == OneTask(TaskAt(id, Queued, Some(RECOVERED), 1, 6), left, Resting, 6, 1, 1)
  {
    hide Recover;
    var left := [RunAt(id, runId, Executing, 2, 4)];
    var s := OneTask(TaskAt(id, InProgress, None, 1, 3), left, Resting, 5, 1, 0);
    RecoverEffect(s.store, 3, 6);
    var s' := Apply(s, RecoverStale(3, 6), maxFailures);
    assert StaleIds(s.store, 3) == {id};
    assert s'.store.runs == left;
    assert s'.recovered == multiset{}[id := 1];
    assert s'.store.tasks == map[id := TaskAt(id, Queued, Some(RECOVERED), 1, 6)];
  }

  lemma DyingWorks(id: Id, runId: Id, maxFailures: nat, rest: seq<Step>)
    requires var left := [RunAt(id, runId, Executing, 2, 4)];
             CanRun(OneTask(TaskAt(id, Queued, Some(RECOVERED), 1, 6), left, Resting, 6, 1, 1), rest, maxFailures)
    ensures var s, left := Begun(id, runId, None, [], 3, 1, 0), [RunAt(id, runId, Executing, 2, 4)];
            && CanRun(s, Dying(rest), maxFailures)
            && Trace(s, Dying(rest), maxFailures)
               == Trace(OneTask(TaskAt(id, Queued, Some(RECOVERED), 1, 6), left, Resting, 6, 1, 1), rest, maxFailures)
  {
    hide CanRun, Trace, SetRunStatus, Recover;
    var s, left := Begun(id, runId, None, [], 3, 1, 0), [RunAt(id, runId, Executing, 2, 4)];
    ProgressGives(id, runId, maxFailures);
    var s1 := Apply(s, Progress(Executing, 4), maxFailures);
    var s2 := Apply(s1, Crash(5), maxFailures);
    assert Enabled(s1, Crash(5));
    assert s2 == OneTask(TaskAt(id, InProgress, None, 1, 3), left, Resting, 5, 1, 0);
    RecoveryGives(id, runId, maxFailures);
    hide Enabled, Apply, OneTask, Begun;
    TraceCons(s2, RecoverStale(3, 6), rest, maxFailures);
    TraceCons(s1, Crash(5), [RecoverStale(3, 6)] + rest, maxFailures);
    TraceCons(s, Progress(Executing, 4), [Crash(5)] + ([RecoverStale(3, 6)] + rest), maxFailures);
  }

  function ToLeftOver(id: Id, first: Id, second: Id): seq<Step> {
    [Reenqueue(Input(id), 0)] + Beginning(id, first, 0, Dying(Beginning(id, second, 6, [Finish(Success, 10)])))
  }

  lemma FinishWorks(id: Id, first: Id, second: Id, maxFailures: nat)
    requires first != second
    ensures var s := Begun(id, second, Some(RECOVERED), [RunAt(id, first, Executing, 2, 4)], 9, 2, 1);
            && CanRun(s, [Finish(Success, 10)], maxFailures)
            && var s' := Trace(s, [Finish(Success, 10)], maxFailures);
               && Sane(s') && OwnIsListed(s')
               && id in s'.store.tasks && s'.store.tasks[id].status == Succeeded
               && !NoneLeft(s'.store.runs, id)
  {
    hide FinishCurrent, CurrentRun;
    var s := Begun(id, second, Some(RECOVERED), [RunAt(id, first, Executing, 2, 4)], 9, 2, 1);
    FinishCurrentEffect(s.store, Success, maxFailures, 10);
    var i := FinishCurrentRuns(s.store, Success, maxFailures, 10);
    assert IsActive(s.store.runs[0].status);
    var s' := Apply(s, Finish(Success, 10), maxFailures);
    assert [Finish(Success, 10)][1..] == [];
    assert Trace(s, [Finish(Success, 10)], maxFailures) == Trace(s', [], maxFailures) == s';
    assert s'.store.runs[1] == RunAt(id, first, Executing, 2, 4);
  }

  /**
   * From the empty store, with one crash and one recovery: the task has succeeded, in its second
   * run, and its first run is still active.
   */
  lemma LeftOverIsReached(id: Id, first: Id, second: Id, maxFailures: nat)
    requires first != second
    ensures CanRun(EMPTY, ToLeftOver(id, first, second), maxFailures)
    ensures var s := Trace(EMPTY, ToLeftOver(id, first, second), maxFailures);
            && Sane(s) && OwnIsListed(s)
            && id in s.store.tasks && s.store.tasks[id].status == Succeeded
            && !NoneLeft(s.store.runs, id)
  {
    var left := [RunAt(id, first, Executing, 2, 4)];
    var last := [Finish(Success, 10)];
    hide CanRun, Trace, Sane, OwnIsListed, NoneLeft, Begun, Dying, Beginning;
    FinishWorks(id, first, second, maxFailures);
    BeginningWorks(id, second, Some(RECOVERED), left, 6, 1, 1, maxFailures, last);
    DyingWorks(id, first, maxFailures, Beginning(id, second, 6, last));
    BeginningWorks(id, first, None, [], 0, 0, 0, maxFailures, Dying(Beginning(id, second, 6, last)));
    var s := OneTask(TaskAt(id, Queued, None, 0, 0), [], Resting, 0, 0, 0);
    assert Apply(EMPTY, Reenqueue(Input(id), 0), maxFailures) == s;
    var rest := Beginning(id, first, 0, Dying(Beginning(id, second, 6, last)));
    TraceCons(EMPTY, Reenqueue(Input(id), 0), rest, maxFailures);
  }

  /** And from there exceptions give the succeeded task another status. */
  lemma SucceededTaskIsReopened(id: Id, first: Id, second: Id, maxFailures: nat) returns (steps: seq<Step>)
    requires first != second
    ensures CanRun(EMPTY, ToLeftOver(id, first, second), maxFailures)
    ensures var s := Trace(EMPTY, ToLeftOver(id, first, second), maxFailures);
            CanRun(s, steps, maxFailures) && !KeepsStatus(s, steps, maxFailures, id, Succeeded)
  {
    LeftOverIsReached(id, first, second, maxFailures);
    var s := Trace(EMPTY, ToLeftOver(id, first, second), maxFailures);
    FinishedIsSafeExactly(s, maxFailures, id);
    steps :| CanRun(s, steps, maxFailures) && !KeepsStatus(s, steps, maxFailures, id, Succeeded);
  }
}
