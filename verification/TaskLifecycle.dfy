/**
 * The worker loop over the task store, with re-enqueues, stale recoveries, exceptions and crashes
 * interleaved between its store operations.
 */
module TaskLifecycle {
  import opened Options
  import opened TaskStore

  datatype Worker =
    | Resting
    | Chosen(id: Id)
    | Started(id: Id, runId: Id)
    | Working(id: Id, runId: Id)

  // `started` and `recovered` count, per task, the runs begun and the stale recoveries.
  datatype System = System(
    store: Store, worker: Worker, clock: int, started: multiset<Id>, recovered: multiset<Id>)

  datatype Step =
    | Choose(id: Id, now: int)
    | BlockScopeless(id: Id, now: int)
    | Start(runId: Id, now: int)
    | Begin(now: int)
    | Progress(status: RunStatus, now: int)
    | Finish(outcome: Outcome, now: int)
    | Throw(message: string, now: int)
    | Reenqueue(input: TaskInput, now: int)
    | RecoverStale(cutoff: int, now: int)
    | Crash(now: int)

  const BASE_DELAY := 30_000
  const MAX_DELAY := 900_000

  function Pow2(n: nat): nat {
    if n == 0 then 1 else 2 * Pow2(n - 1)
  }

  function RetryDelay(status: TaskStatus, runCount: nat): int {
    if !status.Failed? then 0
    else
      var failures := if runCount < 1 then 1 else runCount;
      var exponent := if failures - 1 < 5 then failures - 1 else 5;
      var delay := BASE_DELAY * Pow2(exponent);
      if delay < MAX_DELAY then delay else MAX_DELAY
  }

  // A queued task, or a failed one whose retry delay has passed.
  predicate Eligible(t: Task, now: int) {
    t.status.Queued? || (t.status.Failed? && now - t.updatedAt >= RetryDelay(t.status, t.runCount))
  }

  predicate Enabled(s: System, step: Step) {
    && s.clock <= step.now
    && match step
       case Choose(id, now) =>
         s.worker.Resting? && id in s.store.tasks && Eligible(s.store.tasks[id], now)
         && s.store.tasks[id].editScopes != []
       case BlockScopeless(id, now) =>
         s.worker.Resting? && id in s.store.tasks && Eligible(s.store.tasks[id], now)
         && s.store.tasks[id].editScopes == []
       case Start(runId, _) => s.worker.Chosen? && forall i | 0 <= i < |s.store.runs| :: s.store.runs[i].id != runId
       case Begin(_) => s.worker.Started?
       case Progress(status, _) => s.worker.Working? && IsActive(status)
       case Finish(outcome, _) => s.worker.Working? && !outcome.Dropped?
       case Throw(_, _) => true
       case Reenqueue(_, _) => true
       case RecoverStale(cutoff, now) => cutoff <= now
       case Crash(_) => true
  }

  // The worker ends whatever run is the current one, if there is one.
  function FinishCurrent(s: Store, o: Outcome, maxFailures: nat, now: int): Store {
    var run := CurrentRun(s.runs);
    if run.Some? then FinishRun(s, run.value.id, o, maxFailures, now) else s
  }

  function StaleIds(s: Store, cutoff: int): set<Id> {
    set id | id in s.tasks && StaleTask(s.tasks[id], cutoff)
  }

  function Apply(s: System, step: Step, maxFailures: nat): System
    requires Enabled(s, step)
  {
    var s0 := s.(clock := step.now);
    match step
    case Choose(id, _) => s0.(worker := Chosen(id))
    case BlockScopeless(id, now) => s0.(store := UpdateStatus(s.store, id, Blocked, None, Some(NO_SCOPES), now))
    case Start(runId, now) =>
      var id := s.worker.id;
      s0.(store := StartRun(s.store, id, runId, now), worker := Started(id, runId), started := s.started + multiset{id})
    case Begin(now) =>
      s0.(store := UpdateStatus(s.store, s.worker.id, InProgress, None, None, now),
          worker := Working(s.worker.id, s.worker.runId))
    case Progress(status, now) => s0.(store := SetRunStatus(s.store, s.worker.runId, status, now))
    case Finish(outcome, now) => s0.(store := FinishCurrent(s.store, outcome, maxFailures, now), worker := Resting)
    case Throw(message, now) =>
      s0.(store := FinishCurrent(s.store, Failure(Some(message)), maxFailures, now), worker := Resting)
    case Reenqueue(input, now) => s0.(store := Enqueue(s.store, input, now))
    case RecoverStale(cutoff, now) =>
      s0.(store := Recover(s.store, cutoff, now), recovered := s.recovered + multiset(StaleIds(s.store, cutoff)))
    case Crash(_) => s0.(worker := Resting)
  }

  predicate CanRun(s: System, steps: seq<Step>, maxFailures: nat)
    decreases |steps|
  {
    steps != [] ==> Enabled(s, steps[0]) && CanRun(Apply(s, steps[0], maxFailures), steps[1..], maxFailures)
  }

  function Trace(s: System, steps: seq<Step>, maxFailures: nat): System
    requires CanRun(s, steps, maxFailures)
    decreases |steps|
  {
    if steps == [] then s else Trace(Apply(s, steps[0], maxFailures), steps[1..], maxFailures)
  }

  lemma TraceCons(s: System, step: Step, rest: seq<Step>, maxFailures: nat)
    requires Enabled(s, step) && CanRun(Apply(s, step, maxFailures), rest, maxFailures)
    ensures CanRun(s, [step] + rest, maxFailures)
    ensures Trace(s, [step] + rest, maxFailures) == Trace(Apply(s, step, maxFailures), rest, maxFailures)
  {
    hide Enabled, Apply;
    assert ([step] + rest)[1..] == rest;
  }

  /**
   * The loop is never stuck and nothing is ruled out: a chosen task can be started, a started run
   * begun, a run at work go on or end with any result, and exceptions, re-enqueues, recoveries and
   * deaths come at any time.
   */
  lemma AnythingCanHappen(s: System, runId: Id, status: RunStatus, o: Outcome, input: TaskInput, cutoff: int)
    ensures s.worker.Chosen? && (forall i | 0 <= i < |s.store.runs| :: s.store.runs[i].id != runId) ==>
              Enabled(s, Start(runId, s.clock))
    ensures s.worker.Started? ==> Enabled(s, Begin(s.clock))
    ensures s.worker.Working? && status in {RunSelected, Analyzing, Executing, Verifying} ==>
              Enabled(s, Progress(status, s.clock))
    ensures s.worker.Working? && o != Dropped ==> Enabled(s, Finish(o, s.clock))
    ensures Enabled(s, Throw("", s.clock)) && Enabled(s, Reenqueue(input, s.clock)) && Enabled(s, Crash(s.clock))
    ensures cutoff <= s.clock ==> Enabled(s, RecoverStale(cutoff, s.clock))
  {
  }

  /** Twice the failures so far, thirty seconds at first, a quarter of an hour at most. */
  lemma RetryDelayTable(k: nat)
    ensures RetryDelay(Failed, k) ==
            if k <= 1 then 30_000 else if k == 2 then 60_000 else if k == 3 then 120_000
            else if k == 4 then 240_000 else if k == 5 then 480_000 else 900_000
  {
    assert Pow2(1) == 2 && Pow2(2) == 4 && Pow2(3) == 8 && Pow2(4) == 16 && Pow2(5) == 32;
  }

  lemma RetryDelayIsMonotone(j: nat, k: nat)
    requires j <= k
    ensures RetryDelay(Failed, j) <= RetryDelay(Failed, k)
  {
    RetryDelayTable(j);
    RetryDelayTable(k);
  }

  /** A task can run if it is queued, or has failed and waited out the delay for its run count. */
  lemma EligibleExactly(t: Task, now: int)
    ensures Eligible(t, now) <==>
            || t.status == Queued
            || (t.status == Failed
                && now - t.updatedAt >= if t.runCount <= 1 then 30_000 else if t.runCount == 2 then 60_000
                                        else if t.runCount == 3 then 120_000 else if t.runCount == 4 then 240_000
                                        else if t.runCount == 5 then 480_000 else 900_000)
  {
    RetryDelayTable(t.runCount);
  }

  // ---- How often a task can run ----------------------------------------------------------

  // `failed` means attempts are left; a queued task has spent at most the rest on recoveries.
  ghost predicate CountOk(t: Task, recoveries: nat, maxFailures: nat) {
    match t.status
    case Failed => t.runCount < maxFailures
    case Queued => t.runCount < maxFailures + recoveries
    case _ => t.runCount <= maxFailures + recoveries
  }

  ghost predicate TaskOk(s: System, id: Id, maxFailures: nat) {
    && (id in s.store.tasks ==>
          CountOk(s.store.tasks[id], s.recovered[id], maxFailures) && s.started[id] <= s.store.tasks[id].runCount)
    && (s.started[id] > 0 ==> id in s.store.tasks)
  }

  ghost predicate WorkerOk(s: System) {
    match s.worker
    case Resting => true
    case Chosen(id) => id in s.store.tasks && (s.store.tasks[id].status.Queued? || s.store.tasks[id].status.Failed?)
    case Started(id, _) => id in s.store.tasks && !IsTerminal(s.store.tasks[id].status)
    case Working(id, _) => id in s.store.tasks && !IsTerminal(s.store.tasks[id].status)
  }

  // What holds whatever crashed before: a worker never works on a finished task.
  ghost predicate Sane(s: System) {
    Wellformed(s.store) && WorkerOk(s)
  }

  ghost predicate Inv(s: System, maxFailures: nat) {
    Sane(s) && forall id :: TaskOk(s, id, maxFailures)
  }

  lemma RunIndexIsExact(s: Store, i: nat)
    requires Wellformed(s) && i < |s.runs|
    ensures RunIndex(s.runs, s.runs[i].id) == i
  {
  }

  /** Ending the current run touches at most its source task, and never that one's count. */
  lemma FinishCurrentEffect(s: Store, o: Outcome, maxFailures: nat, now: int)
    requires Wellformed(s)
    ensures var s', run := FinishCurrent(s, o, maxFailures, now), CurrentRun(s.runs);
            && Wellformed(s')
            && (run.None? ==> s' == s)
            && (run.Some? && run.value.sourceTaskId !in s.tasks ==> s'.tasks == s.tasks)
            && (run.Some? && run.value.sourceTaskId in s.tasks ==>
                  var id := run.value.sourceTaskId;
                  && s'.tasks == s.tasks[id := s'.tasks[id]]
                  && s'.tasks[id].runCount == s.tasks[id].runCount && s'.tasks[id].updatedAt == now
                  && s'.tasks[id].status == EndStatus(s.tasks[id], o, maxFailures))
  {
    hide FinishRun, Wellformed;
    var i := CurrentRunIsNewest(s.runs);
    if i < |s.runs| {
      RunIndexIsExact(s, i);
      FinishRunEffect(s, s.runs[i].id, o, maxFailures, now);
    }
  }

  function EndStatus(t: Task, o: Outcome, maxFailures: nat): TaskStatus {
    if o.Failure? && t.runCount >= maxFailures then Discarded else TaskEnd(o)
  }

  lemma FinishCurrentKeepsInv(s: System, o: Outcome, maxFailures: nat, now: int)
    requires Inv(s, maxFailures) && !o.Dropped?
    ensures Inv(s.(store := FinishCurrent(s.store, o, maxFailures, now), worker := Resting, clock := now), maxFailures)
  {
    hide FinishCurrent, Wellformed, CurrentRun;
    FinishCurrentEffect(s.store, o, maxFailures, now);
    var s' := s.(store := FinishCurrent(s.store, o, maxFailures, now), worker := Resting, clock := now);
    forall id ensures TaskOk(s', id, maxFailures) {
      assert TaskOk(s, id, maxFailures);
    }
  }

  lemma StartKeepsInv(s: System, runId: Id, now: int, maxFailures: nat)
    requires Inv(s, maxFailures) && Enabled(s, Start(runId, now))
    ensures Inv(Apply(s, Start(runId, now), maxFailures), maxFailures)
  {
    hide StartRun, Wellformed;
    var s' := Apply(s, Start(runId, now), maxFailures);
    StartRunEffect(s.store, s.worker.id, runId, now);
    forall id ensures TaskOk(s', id, maxFailures) {
      assert TaskOk(s, id, maxFailures);
    }
  }

  lemma RecoverKeepsInv(s: System, cutoff: int, now: int, maxFailures: nat)
    requires Inv(s, maxFailures) && Enabled(s, RecoverStale(cutoff, now))
    ensures Inv(Apply(s, RecoverStale(cutoff, now), maxFailures), maxFailures)
  {
    hide Recover, Wellformed;
    var s' := Apply(s, RecoverStale(cutoff, now), maxFailures);
    RecoverEffect(s.store, cutoff, now);
    forall id ensures TaskOk(s', id, maxFailures) {
      assert TaskOk(s, id, maxFailures);
      assert s'.recovered[id] == s.recovered[id] + if id in StaleIds(s.store, cutoff) then 1 else 0;
    }
  }

  lemma ReenqueueKeepsInv(s: System, input: TaskInput, now: int, maxFailures: nat)
    requires Inv(s, maxFailures) && 1 <= maxFailures
    ensures Inv(s.(store := Enqueue(s.store, input, now), clock := now), maxFailures)
  {
    hide Enqueue, Wellformed;
    var s' := s.(store := Enqueue(s.store, input, now), clock := now);
    EnqueueEffect(s.store, input, now);
    forall id ensures TaskOk(s', id, maxFailures) {
      assert TaskOk(s, id, maxFailures);
    }
  }

  lemma StatusKeepsInv(
      s: System, worker: Worker, id: Id, status: TaskStatus, reason: Option<string>, now: int, maxFailures: nat)
    requires Inv(s, maxFailures) && id in s.store.tasks && (status.Blocked? || status.InProgress?)
    requires worker.Resting? || (worker.Working? && worker.id == id && status.InProgress?)
    ensures var store' := UpdateStatus(s.store, id, status, None, reason, now);
            Inv(s.(store := store', worker := worker, clock := now), maxFailures)
  {
    hide UpdateStatus, Wellformed;
    var s' := s.(store := UpdateStatus(s.store, id, status, None, reason, now), worker := worker, clock := now);
    UpdateStatusEffect(s.store, id, status, None, reason, now);
    forall x ensures TaskOk(s', x, maxFailures) {
      assert TaskOk(s, x, maxFailures);
    }
  }

  lemma QuietStepKeepsInv(s: System, step: Step, maxFailures: nat)
    requires Inv(s, maxFailures) && Enabled(s, step)
    requires step.Choose? || step.Crash? || step.Progress?
    ensures Inv(Apply(s, step, maxFailures), maxFailures)
  {
    hide SetRunStatus, Wellformed;
    if step.Progress? {
      SetRunStatusEffect(s.store, s.worker.runId, step.status, step.now);
    }
    forall id ensures TaskOk(Apply(s, step, maxFailures), id, maxFailures) {
      assert TaskOk(s, id, maxFailures);
    }
  }

  lemma StepKeepsInv(s: System, step: Step, maxFailures: nat)
    requires Inv(s, maxFailures) && Enabled(s, step) && 1 <= maxFailures
    ensures Inv(Apply(s, step, maxFailures), maxFailures)
    ensures s.started <= Apply(s, step, maxFailures).started && s.recovered <= Apply(s, step, maxFailures).recovered
  {
    hide FinishCurrent, Recover, UpdateStatus, StartRun, Enqueue, Wellformed, TaskOk;
    match step
    case BlockScopeless(id, now) => StatusKeepsInv(s, s.worker, id, Blocked, Some(NO_SCOPES), now, maxFailures);
    case Start(runId, now) => StartKeepsInv(s, runId, now, maxFailures);
    case Begin(now) =>
      StatusKeepsInv(s, Working(s.worker.id, s.worker.runId), s.worker.id, InProgress, None, now, maxFailures);
    case Finish(o, now) => FinishCurrentKeepsInv(s, o, maxFailures, now);
    case Throw(m, now) => FinishCurrentKeepsInv(s, Failure(Some(m)), maxFailures, now);
    case Reenqueue(input, now) => ReenqueueKeepsInv(s, input, now, maxFailures);
    case RecoverStale(cutoff, now) => RecoverKeepsInv(s, cutoff, now, maxFailures);
    case _ => QuietStepKeepsInv(s, step, maxFailures);
  }

  lemma {:induction false} TraceKeepsInv(s: System, steps: seq<Step>, maxFailures: nat)
    requires Inv(s, maxFailures) && CanRun(s, steps, maxFailures) && 1 <= maxFailures
    ensures Inv(Trace(s, steps, maxFailures), maxFailures)
    decreases |steps|
  {
    hide Inv, Enabled, Apply;
    if steps != [] {
      StepKeepsInv(s, steps[0], maxFailures);
      TraceKeepsInv(Apply(s, steps[0], maxFailures), steps[1..], maxFailures);
    }
  }

  // A store before the loop: nothing begun, every task with attempts left if it failed.
  ghost predicate BeforeLoop(s: System, maxFailures: nat) {
    && Wellformed(s.store) && s.worker.Resting?
    && s.started == multiset{} && s.recovered == multiset{}
    && forall id | id in s.store.tasks :: CountOk(s.store.tasks[id], 0, maxFailures)
  }

  /**
   * Whatever re-enqueues, recoveries, exceptions and crashes come between: a task is run at most
   * `maxFailures` times plus its stale recoveries, and a failed task always has attempts left.
   */
  lemma RunsPerTaskAreBounded(s: System, steps: seq<Step>, maxFailures: nat)
    requires BeforeLoop(s, maxFailures) && CanRun(s, steps, maxFailures) && 1 <= maxFailures
    ensures var s' := Trace(s, steps, maxFailures);
            && (forall id :: s'.started[id] <= maxFailures + s'.recovered[id])
            && (forall id | id in s'.store.tasks && s'.store.tasks[id].status.Failed? ::
                  s'.store.tasks[id].runCount < maxFailures)
  {
    TraceKeepsInv(s, steps, maxFailures);
    var s' := Trace(s, steps, maxFailures);
    forall id ensures s'.started[id] <= maxFailures + s'.recovered[id] {
      assert TaskOk(s', id, maxFailures);
    }
    forall id | id in s'.store.tasks && s'.store.tasks[id].status.Failed?
      ensures s'.store.tasks[id].runCount < maxFailures
    {
      assert TaskOk(s', id, maxFailures);
    }
  }

  lemma {:induction false} SumOfBounds(a: multiset<Id>, b: multiset<Id>, ids: set<Id>, bound: nat)
    requires forall id :: a[id] <= bound + b[id]
    requires forall id | id in a :: id in ids
    ensures |a| <= bound * |ids| + |b|
    decreases ids
  {
    if ids == {} {
      assert a == multiset{};
    } else {
      var id :| id in ids;
      SumOfBounds(a[id := 0], b[id := 0], ids - {id}, bound);
      assert |a| == |a[id := 0]| + a[id] && |b| == |b[id := 0]| + b[id];
      assert bound * |ids| == bound * |ids - {id}| + bound;
    }
  }

  /** In all: at most `maxFailures` runs for every task ever known, plus one for every stale recovery. */
  lemma TotalRunsAreBounded(s: System, steps: seq<Step>, maxFailures: nat)
    requires BeforeLoop(s, maxFailures) && CanRun(s, steps, maxFailures) && 1 <= maxFailures
    ensures var s' := Trace(s, steps, maxFailures);
            |s'.started| <= maxFailures * |s'.store.tasks.Keys| + |s'.recovered|
  {
    TraceKeepsInv(s, steps, maxFailures);
    RunsPerTaskAreBounded(s, steps, maxFailures);
    var s' := Trace(s, steps, maxFailures);
    forall id | id in s'.started ensures id in s'.store.tasks.Keys {
      assert TaskOk(s', id, maxFailures);
    }
    SumOfBounds(s'.started, s'.recovered, s'.store.tasks.Keys, maxFailures);
  }

  // ---- One run at a time -----------------------------------------------------------------

  ghost predicate NoneActive(runs: seq<Run>) {
    forall i | 0 <= i < |runs| :: !IsActive(runs[i].status)
  }

  // Only the worker's own run can be active: it is the newest one, and its task is not over.
  ghost predicate Single(s: System) {
    && Sane(s)
    && match s.worker
       case Resting => NoneActive(s.store.runs)
       case Chosen(_) => NoneActive(s.store.runs)
       case Started(id, runId) => OwnRun(s.store, id, runId)
       case Working(id, runId) => OwnRun(s.store, id, runId)
  }

  ghost predicate OwnRun(store: Store, id: Id, runId: Id) {
    && store.runs != [] && store.runs[0].id == runId && store.runs[0].sourceTaskId == id
    && NoneActive(store.runs[1..])
  }

  // And while no recovery interferes, that task is the only one selected or in progress, and its
  // run the one and only active run.
  ghost predicate Exclusive(s: System) {
    && Single(s)
    && (forall id | id in s.store.tasks ::
          (s.store.tasks[id].status.Selected? || s.store.tasks[id].status.InProgress?)
          <==> ((s.worker.Started? || s.worker.Working?) && s.worker.id == id))
    && (s.worker.Started? || s.worker.Working? ==>
          IsActive(s.store.runs[0].status) && CurrentRun(s.store.runs) == Some(s.store.runs[0]))
  }

  lemma FinishCurrentOwn(s: System, o: Outcome, maxFailures: nat, now: int)
    requires Single(s) && (s.worker.Started? || s.worker.Working?)
    ensures CurrentRun(s.store.runs) == if IsActive(s.store.runs[0].status) then Some(s.store.runs[0]) else None
    ensures var store' := FinishCurrent(s.store, o, maxFailures, now);
            && Wellformed(store') && NoneActive(store'.runs)
            && store'.tasks == s.store.tasks[s.worker.id := store'.tasks[s.worker.id]]
            && (IsActive(s.store.runs[0].status) ==>
                  store'.runs == s.store.runs[0 := Ended(s.store.runs[0], o, now)]
                  && store'.tasks[s.worker.id].status ==
                     if o.Failure? && s.store.tasks[s.worker.id].runCount >= maxFailures then Discarded else TaskEnd(o))
            && (!IsActive(s.store.runs[0].status) ==> store' == s.store)
  {
    hide FinishRun;
    var i := CurrentRunIsNewest(s.store.runs);
    assert forall k | 1 <= k < |s.store.runs| :: s.store.runs[k] == s.store.runs[1..][k - 1];
    if i < |s.store.runs| {
      RunIndexIsExact(s.store, i);
      FinishRunEffect(s.store, s.store.runs[i].id, o, maxFailures, now);
    }
  }

  lemma FinishCurrentNone(s: System, o: Outcome, maxFailures: nat, now: int)
    requires NoneActive(s.store.runs)
    ensures FinishCurrent(s.store, o, maxFailures, now) == s.store
  {
    var i := CurrentRunIsNewest(s.store.runs);
  }

  ghost predicate KeepsSingle(s: System, s': System, recovery: bool) {
    && Single(s')
    && (forall id | id in s.store.tasks && IsTerminal(s.store.tasks[id].status) ::
          id in s'.store.tasks && s'.store.tasks[id].status == s.store.tasks[id].status)
    && (!recovery && Exclusive(s) ==> Exclusive(s'))
  }

  lemma EndKeepsSingle(s: System, o: Outcome, maxFailures: nat, now: int)
    requires Single(s) && !o.Dropped?
    ensures var store' := FinishCurrent(s.store, o, maxFailures, now);
            KeepsSingle(s, s.(store := store', worker := Resting, clock := now), false)
  {
    hide FinishCurrent, Wellformed, CurrentRun;
    if s.worker.Started? || s.worker.Working? {
      FinishCurrentOwn(s, o, maxFailures, now);
    } else {
      FinishCurrentNone(s, o, maxFailures, now);
    }
  }

  lemma StartKeepsSingle(s: System, runId: Id, now: int, maxFailures: nat)
    requires Single(s) && Enabled(s, Start(runId, now))
    ensures KeepsSingle(s, Apply(s, Start(runId, now), maxFailures), false)
  {
    hide StartRun, Wellformed, CurrentRun;
    StartRunEffect(s.store, s.worker.id, runId, now);
    StartedRunIsCurrent(s, runId, now);
  }

  lemma OwnStepKeepsSingle(s: System, step: Step, maxFailures: nat)
    requires Single(s) && Enabled(s, step) && (step.Begin? || step.Progress?)
    ensures KeepsSingle(s, Apply(s, step, maxFailures), false)
  {
    hide UpdateStatus, SetRunStatus, Wellformed, CurrentRun;
    if step.Begin? {
      UpdateStatusEffect(s.store, s.worker.id, InProgress, None, None, step.now);
    } else {
      ProgressOwn(s, step.status, step.now);
    }
  }

  lemma ReenqueueKeepsSingle(s: System, input: TaskInput, now: int, maxFailures: nat)
    requires Single(s) && Enabled(s, Reenqueue(input, now))
    ensures KeepsSingle(s, Apply(s, Reenqueue(input, now), maxFailures), false)
  {
    hide Enqueue, Wellformed, CurrentRun;
    EnqueueEffect(s.store, input, now);
  }

  lemma RecoverKeepsSingle(s: System, cutoff: int, now: int, maxFailures: nat)
    requires Single(s) && Enabled(s, RecoverStale(cutoff, now))
    ensures KeepsSingle(s, Apply(s, RecoverStale(cutoff, now), maxFailures), true)
  {
    hide Recover, Wellformed, CurrentRun;
    RecoverEffect(s.store, cutoff, now);
  }

  lemma PickKeepsSingle(s: System, step: Step, maxFailures: nat)
    requires Single(s) && Enabled(s, step) && (step.Choose? || step.BlockScopeless?)
    ensures KeepsSingle(s, Apply(s, step, maxFailures), false)
  {
    hide UpdateStatus, Wellformed, CurrentRun;
    if step.BlockScopeless? {
      UpdateStatusEffect(s.store, step.id, Blocked, None, Some(NO_SCOPES), step.now);
    }
  }

  lemma StepKeepsSingle(s: System, step: Step, maxFailures: nat)
    requires Single(s) && Enabled(s, step) && !step.Crash?
    ensures KeepsSingle(s, Apply(s, step, maxFailures), step.RecoverStale?)
  {
    hide FinishCurrent, Recover, UpdateStatus, StartRun, Enqueue, SetRunStatus, Wellformed, CurrentRun;
    match step
    case Start(runId, now) => StartKeepsSingle(s, runId, now, maxFailures);
    case Finish(o, now) => EndKeepsSingle(s, o, maxFailures, now);
    case Throw(m, now) => EndKeepsSingle(s, Failure(Some(m)), maxFailures, now);
    case Begin(_) => OwnStepKeepsSingle(s, step, maxFailures);
    case Progress(_, _) => OwnStepKeepsSingle(s, step, maxFailures);
    case Reenqueue(input, now) => ReenqueueKeepsSingle(s, input, now, maxFailures);
    case RecoverStale(cutoff, now) => RecoverKeepsSingle(s, cutoff, now, maxFailures);
    case _ => PickKeepsSingle(s, step, maxFailures);
  }

  lemma StartedRunIsCurrent(s: System, runId: Id, now: int)
    requires Single(s) && Enabled(s, Start(runId, now))
    ensures var runs := StartRun(s.store, s.worker.id, runId, now).runs;
            runs != [] && NoneActive(runs[1..]) && CurrentRun(runs) == Some(runs[0])
  {
    StartRunEffect(s.store, s.worker.id, runId, now);
  }

  lemma ProgressOwn(s: System, status: RunStatus, now: int)
    requires Single(s) && s.worker.Working? && IsActive(status)
    ensures var store' := SetRunStatus(s.store, s.worker.runId, status, now);
            && Wellformed(store') && store'.tasks == s.store.tasks && OwnRun(store', s.worker.id, s.worker.runId)
            && IsActive(store'.runs[0].status) && CurrentRun(store'.runs) == Some(store'.runs[0])
  {
    RunIndexIsExact(s.store, 0);
    SetRunStatusEffect(s.store, s.worker.runId, status, now);
    var store' := SetRunStatus(s.store, s.worker.runId, status, now);
    assert store'.runs[1..] == s.store.runs[1..];
  }

  lemma SingleIsSane(s: System)
    requires Single(s)
    ensures Sane(s)
  {
  }

  /**
   * From a store with no active run and without crashes, at most one run is ever active; succeeded
   * and discarded are final and never run again, under re-enqueues and even mid-run recoveries.
   */
  lemma {:induction false} TerminalTasksAreFinal(s: System, steps: seq<Step>, maxFailures: nat, id: Id)
    requires Single(s) && CanRun(s, steps, maxFailures)
    requires forall k | 0 <= k < |steps| :: !steps[k].Crash?
    ensures Single(Trace(s, steps, maxFailures))
    ensures id in s.store.tasks && (s.store.tasks[id].status == Succeeded || s.store.tasks[id].status == Discarded) ==>
              var tasks := Trace(s, steps, maxFailures).store.tasks;
              id in tasks && tasks[id].status == s.store.tasks[id].status
              && NeverChanges(s, steps, maxFailures, id)
              && Trace(s, steps, maxFailures).started[id] == s.started[id]
    decreases |steps|
  {
    hide Single, Enabled, Apply, Changes;
    if steps != [] {
      StepKeepsSingle(s, steps[0], maxFailures);
      SingleIsSane(s);
      if id in s.store.tasks && IsTerminal(s.store.tasks[id].status) {
        FinishedChangesExactly(s, steps[0], maxFailures, id);
      }
      TerminalTasksAreFinal(Apply(s, steps[0], maxFailures), steps[1..], maxFailures, id);
    }
  }

  // A step that takes the run away from a worker in the middle of it: the worker's death, or a
  // recovery that finds the run or its task stale.
  predicate Disturbs(s: System, step: Step) {
    && (s.worker.Started? || s.worker.Working?)
    && (|| step.Crash?
        || (&& step.RecoverStale?
            && (|| (s.store.runs != [] && s.store.runs[0].updatedAt <= step.cutoff)
                || (s.worker.id in s.store.tasks && s.store.tasks[s.worker.id].updatedAt <= step.cutoff))))
  }

  lemma RecoverKeepsExclusive(s: System, cutoff: int, now: int, maxFailures: nat)
    requires Exclusive(s) && Enabled(s, RecoverStale(cutoff, now))
    ensures var s' := Apply(s, RecoverStale(cutoff, now), maxFailures);
            && (Exclusive(s') <==> !Disturbs(s, RecoverStale(cutoff, now)))
            && (Exclusive(s') ==> s'.store.runs == s.store.runs)
  {
    hide Recover, Wellformed, CurrentRun;
    RecoverEffect(s.store, cutoff, now);
    var s' := Apply(s, RecoverStale(cutoff, now), maxFailures);
    assert forall i | 1 <= i < |s.store.runs| :: s.store.runs[i] == s.store.runs[1..][i - 1];
    if !Disturbs(s, RecoverStale(cutoff, now)) {
      assert s'.store.runs == s.store.runs;
    }
  }

  /** The exact condition: a step breaks the one run at a time if and only if it disturbs a worker. */
  lemma ExclusiveExactly(s: System, step: Step, maxFailures: nat)
    requires Exclusive(s) && Enabled(s, step)
    ensures Exclusive(Apply(s, step, maxFailures)) <==> !Disturbs(s, step)
  {
    hide Apply, Enabled;
    if step.RecoverStale? {
      RecoverKeepsExclusive(s, step.cutoff, step.now, maxFailures);
    } else if step.Crash? {
      CrashKeepsExclusive(s, step, maxFailures);
    } else {
      StepKeepsSingle(s, step, maxFailures);
    }
  }

  lemma CrashKeepsExclusive(s: System, step: Step, maxFailures: nat)
    requires Exclusive(s) && step.Crash? && Enabled(s, step)
    ensures Exclusive(Apply(s, step, maxFailures)) <==> !Disturbs(s, step)
  {
  }

  ghost predicate AlwaysExclusive(s: System, steps: seq<Step>, maxFailures: nat)
    requires CanRun(s, steps, maxFailures)
    decreases |steps|
  {
    Exclusive(s) && (steps != [] ==> AlwaysExclusive(Apply(s, steps[0], maxFailures), steps[1..], maxFailures))
  }

  predicate Undisturbed(s: System, steps: seq<Step>, maxFailures: nat)
    requires CanRun(s, steps, maxFailures)
    decreases |steps|
  {
    steps != [] ==>
      !Disturbs(s, steps[0]) && Undisturbed(Apply(s, steps[0], maxFailures), steps[1..], maxFailures)
  }

  /**
   * At every point of a run of the loop the worker's run is the one active run, the newest and the
   * one `getCurrentRun` gives, and its task the only one selected or in progress: if and only if no
   * step of the run disturbs the worker.
   */
  lemma {:induction false} LoopIsExclusive(s: System, steps: seq<Step>, maxFailures: nat)
    requires Exclusive(s) && CanRun(s, steps, maxFailures)
    ensures AlwaysExclusive(s, steps, maxFailures) <==> Undisturbed(s, steps, maxFailures)
    ensures Undisturbed(s, steps, maxFailures) ==> Exclusive(Trace(s, steps, maxFailures))
    decreases |steps|
  {
    hide Exclusive, Enabled, Apply, Disturbs;
    if steps != [] {
      ExclusiveExactly(s, steps[0], maxFailures);
      if !Disturbs(s, steps[0]) {
        LoopIsExclusive(Apply(s, steps[0], maxFailures), steps[1..], maxFailures);
      }
    }
  }

  /**
   * What a disturbance does: a recovery in the middle of a run and the worker's next update end
   * that run and make it active again, if and only if the run was stale.
   */
  lemma RecoveryMidRunIsUndone(s: System, cutoff: int, status: RunStatus, now: int, maxFailures: nat)
    requires Exclusive(s) && s.worker.Working? && IsActive(status) && Enabled(s, RecoverStale(cutoff, now))
    ensures var s1 := Apply(s, RecoverStale(cutoff, now), maxFailures);
            && Enabled(s1, Progress(status, now)) && s1.store.runs != []
            && var s2 := Apply(s1, Progress(status, now), maxFailures);
               && s2.store.runs != [] && s2.store.runs[0].id == s1.store.runs[0].id == s.store.runs[0].id
               && IsActive(s2.store.runs[0].status)
               && (!IsActive(s1.store.runs[0].status) <==> s.store.runs[0].updatedAt <= cutoff)
  {
    hide Recover, SetRunStatus, Wellformed;
    var s1 := Apply(s, RecoverStale(cutoff, now), maxFailures);
    RecoverEffect(s.store, cutoff, now);
    RunIndexIsExact(s1.store, 0);
    SetRunStatusEffect(s1.store, s.worker.runId, status, now);
  }

  // ---- Every run ends once -----------------------------------------------------------------

  // The runs the worker is done with.
  function EndedRuns(s: System): seq<Run> {
    if (s.worker.Started? || s.worker.Working?) && s.store.runs != [] then s.store.runs[1..] else s.store.runs
  }

  // Runs as they were begun, newest first: their ids and their tasks.
  function BegunBy(s: System, step: Step): seq<(Id, Id)>
    requires Enabled(s, step)
  {
    if step.Start? then [(step.runId, s.worker.id)] else []
  }

  function Begun(s: System, steps: seq<Step>, maxFailures: nat): seq<(Id, Id)>
    requires CanRun(s, steps, maxFailures)
    decreases |steps|
  {
    if steps == [] then []
    else Begun(Apply(s, steps[0], maxFailures), steps[1..], maxFailures) + BegunBy(s, steps[0])
  }

  // The run begun and not ended yet.
  function Unfinished(s: System): seq<(Id, Id)> {
    if s.worker.Started? || s.worker.Working? then [(s.worker.runId, s.worker.id)] else []
  }

  // How a run ended: which run, of which task, with what outcome and when.
  datatype Ending = Ending(runId: Id, taskId: Id, outcome: Outcome, now: int)

  function EndedBy(s: System, step: Step): seq<Ending> {
    if EndsRun(step) && (s.worker.Started? || s.worker.Working?)
    then [Ending(s.worker.runId, s.worker.id, OutcomeOf(step), step.now)]
    else []
  }

  // Newest first, like the runs begun.
  function Endings(s: System, steps: seq<Step>, maxFailures: nat): seq<Ending>
    requires CanRun(s, steps, maxFailures)
    decreases |steps|
  {
    if steps == [] then []
    else Endings(Apply(s, steps[0], maxFailures), steps[1..], maxFailures) + EndedBy(s, steps[0])
  }

  function RunsOf(ended: seq<Ending>): seq<(Id, Id)> {
    seq(|ended|, i requires 0 <= i < |ended| => (ended[i].runId, ended[i].taskId))
  }

  // `newer` are the runs that ended so, the newest of them, in order, each showing its outcome.
  ghost predicate AreEnded(newer: seq<Run>, ended: seq<Ending>) {
    && |newer| <= |ended|
    && forall i | 0 <= i < |newer| ::
         && newer[i].id == ended[i].runId && newer[i].sourceTaskId == ended[i].taskId
         && ShowsOutcome(newer[i], ended[i].outcome, ended[i].now)
  }

  /**
   * Between two states: the runs begun, with the one unfinished before, are the one unfinished
   * after and those ended since. Those ended since stand, in order, on top of what was ended
   * before; runs are missing only from the old end, and only when the list is at its cap.
   */
  ghost predicate OnTop(
      before: System, after: System, begun: seq<(Id, Id)>, ended: seq<Ending>, newer: seq<Run>, kept: nat)
  {
    && begun + Unfinished(before) == Unfinished(after) + RunsOf(ended)
    && AreEnded(newer, ended)
    && kept <= |EndedRuns(before)|
    && EndedRuns(after) == newer + EndedRuns(before)[..kept]
    && (kept > 0 ==> |newer| == |ended|)
    && (kept < |EndedRuns(before)| || |newer| < |ended| ==> |after.store.runs| >= 200)
    && (|before.store.runs| >= 200 ==> |after.store.runs| >= 200)
  }

  lemma StartEndsNothing(s: System, runId: Id, now: int, maxFailures: nat) returns (kept: nat)
    requires Sane(s) && Enabled(s, Start(runId, now))
    ensures OnTop(s, Apply(s, Start(runId, now), maxFailures), [(runId, s.worker.id)], [], [], kept)
  {
    hide StartRun, Wellformed, IsActive;
    var s' := Apply(s, Start(runId, now), maxFailures);
    StartRunEffect(s.store, s.worker.id, runId, now);
    StartRunLength(s.store, s.worker.id, runId, now);
    kept := |s'.store.runs| - 1;
  }

  lemma StartRunLength(s: Store, id: Id, runId: Id, now: int)
    ensures var n := |StartRun(s, id, runId, now).runs|;
            n == if |s.runs| >= 200 then 200 else |s.runs| + 1
  {
  }

  lemma EndingEndsOne(s: System, step: Step, maxFailures: nat) returns (newer: seq<Run>)
    requires Exclusive(s) && Enabled(s, step) && EndsRun(step)
    ensures OnTop(s, Apply(s, step, maxFailures), [], EndedBy(s, step), newer, |EndedRuns(s)|)
  {
    hide FinishCurrent, Wellformed, CurrentRun, ShowsOutcome;
    var o := OutcomeOf(step);
    newer := [];
    if s.worker.Started? || s.worker.Working? {
      FinishCurrentOwn(s, o, maxFailures, step.now);
      EndedShowsOutcome(s.store.runs[0], o, step.now);
      newer := [Ended(s.store.runs[0], o, step.now)];
      assert RunsOf(EndedBy(s, step)) == Unfinished(s);
    } else {
      FinishCurrentNone(s, o, maxFailures, step.now);
    }
  }

  // A step that leaves the runs and the unfinished one alone ends nothing.
  lemma NothingEndsIf(s: System, s': System)
    requires s'.store.runs == s.store.runs && Unfinished(s') == Unfinished(s)
    ensures OnTop(s, s', [], [], [], |EndedRuns(s)|)
  {
  }

  lemma ProgressEndsNothing(s: System, status: RunStatus, now: int, maxFailures: nat)
    requires Exclusive(s) && Enabled(s, Progress(status, now))
    ensures OnTop(s, Apply(s, Progress(status, now), maxFailures), [], [], [], |EndedRuns(s)|)
  {
    hide SetRunStatus, Wellformed, CurrentRun;
    RunIndexIsExact(s.store, 0);
    SetRunStatusEffect(s.store, s.worker.runId, status, now);
  }

  lemma StepEndsRunsOnce(s: System, step: Step, maxFailures: nat) returns (newer: seq<Run>, kept: nat)
    requires Exclusive(s) && Enabled(s, step) && !Disturbs(s, step)
    ensures OnTop(s, Apply(s, step, maxFailures), BegunBy(s, step), EndedBy(s, step), newer, kept)
  {
    hide FinishCurrent, UpdateStatus, StartRun, Enqueue, SetRunStatus, Recover;
    hide Wellformed, CurrentRun, OnTop, EndedRuns;
    newer, kept := [], |EndedRuns(s)|;
    if EndsRun(step) {
      newer := EndingEndsOne(s, step, maxFailures);
    } else {
      match step {
        case Start(runId, now) => kept := StartEndsNothing(s, runId, now, maxFailures);
        case Progress(status, now) => ProgressEndsNothing(s, status, now, maxFailures);
        case Begin(now) => UpdateStatusEffect(s.store, s.worker.id, InProgress, None, None, now);
        case BlockScopeless(id, now) => UpdateStatusEffect(s.store, id, Blocked, None, Some(NO_SCOPES), now);
        case Reenqueue(input, now) => EnqueueEffect(s.store, input, now);
        case RecoverStale(cutoff, now) => RecoverKeepsExclusive(s, cutoff, now, maxFailures);
        case Choose(_, _) =>
        case Crash(_) =>
      }
      if !step.Start? && !step.Progress? {
        NothingEndsIf(s, Apply(s, step, maxFailures));
      }
    }
  }

  /**
   * Every run that is begun ends exactly once, by result or by exception, or is the unfinished one;
   * once ended it shows the outcome it was ended with, keeps its place and contents under all newer
   * ones, and only the cap of 200 drops it, from the old end.
   */
  lemma {:induction false} RunsEndOnce(s: System, steps: seq<Step>, maxFailures: nat)
      returns (newer: seq<Run>, kept: nat)
    requires Exclusive(s) && CanRun(s, steps, maxFailures) && Undisturbed(s, steps, maxFailures)
    ensures OnTop(s, Trace(s, steps, maxFailures), Begun(s, steps, maxFailures), Endings(s, steps, maxFailures),
                  newer, kept)
    decreases |steps|
  {
    hide Exclusive, Enabled, Apply, Disturbs, Unfinished, EndedRuns, AreEnded, BegunBy, EndedBy, OnTop;
    if steps == [] {
      newer, kept := NothingEnds(s);
    } else {
      var mid := Apply(s, steps[0], maxFailures);
      ExclusiveExactly(s, steps[0], maxFailures);
      var newer1, kept1 := StepEndsRunsOnce(s, steps[0], maxFailures);
      var newer2, kept2 := RunsEndOnce(mid, steps[1..], maxFailures);
      newer, kept := OnTopComposes(
        s, mid, Trace(s, steps, maxFailures), BegunBy(s, steps[0]), EndedBy(s, steps[0]), newer1, kept1,
        Begun(mid, steps[1..], maxFailures), Endings(mid, steps[1..], maxFailures), newer2, kept2);
    }
  }

  lemma NothingEnds(s: System) returns (newer: seq<Run>, kept: nat)
    ensures OnTop(s, s, [], [], newer, kept)
  {
    newer, kept := [], |EndedRuns(s)|;
  }

  lemma OnTopComposes(
      a: System, b: System, c: System,
      begun1: seq<(Id, Id)>, ended1: seq<Ending>, newer1: seq<Run>, kept1: nat,
      begun2: seq<(Id, Id)>, ended2: seq<Ending>, newer2: seq<Run>, kept2: nat)
      returns (newer: seq<Run>, kept: nat)
    requires OnTop(a, b, begun1, ended1, newer1, kept1) && OnTop(b, c, begun2, ended2, newer2, kept2)
    ensures OnTop(a, c, begun2 + begun1, ended2 + ended1, newer, kept)
  {
    hide EndedRuns, Unfinished, ShowsOutcome;
    assert RunsOf(ended2 + ended1) == RunsOf(ended2) + RunsOf(ended1);
    LogsCompose(Unfinished(a), Unfinished(b), Unfinished(c), begun1, RunsOf(ended1), begun2, RunsOf(ended2));
    if kept2 <= |newer1| {
      newer, kept := newer2 + newer1[..kept2], 0;
      assert EndedRuns(b)[..kept2] == newer1[..kept2];
    } else {
      newer, kept := newer2 + newer1, kept2 - |newer1|;
      assert EndedRuns(b)[..kept2] == newer1 + EndedRuns(a)[..kept];
    }
  }

  lemma LogsCompose<T>(
      a: seq<T>, b: seq<T>, c: seq<T>, begun1: seq<T>, ended1: seq<T>, begun2: seq<T>, ended2: seq<T>)
    requires begun1 + a == b + ended1 && begun2 + b == c + ended2
    ensures begun2 + begun1 + a == c + (ended2 + ended1)
  {
    assert begun2 + begun1 + a == begun2 + (begun1 + a) == (begun2 + b) + ended1;
  }

  // ---- Finished tasks, whatever crashed before ---------------------------------------------

  lemma EndingKeepsSane(s: System, step: Step, maxFailures: nat)
    requires Sane(s) && Enabled(s, step) && EndsRun(step)
    ensures Sane(Apply(s, step, maxFailures))
  {
    hide FinishCurrent, Wellformed, CurrentRun;
    FinishCurrentEffect(s.store, OutcomeOf(step), maxFailures, step.now);
  }

  lemma StoreKeepsSane(s: System, step: Step, maxFailures: nat)
    requires Sane(s) && Enabled(s, step) && (step.Reenqueue? || step.RecoverStale? || step.Progress?)
    ensures Sane(Apply(s, step, maxFailures))
  {
    hide Recover, Enqueue, SetRunStatus, Wellformed;
    match step {
      case Progress(status, now) => SetRunStatusEffect(s.store, s.worker.runId, status, now);
      case Reenqueue(input, now) => EnqueueEffect(s.store, input, now);
      case RecoverStale(cutoff, now) => RecoverEffect(s.store, cutoff, now);
    }
  }

  lemma StepKeepsSane(s: System, step: Step, maxFailures: nat)
    requires Sane(s) && Enabled(s, step)
    ensures Sane(Apply(s, step, maxFailures))
  {
    hide FinishCurrent, Recover, UpdateStatus, StartRun, Enqueue, SetRunStatus, Wellformed, CurrentRun;
    if EndsRun(step) {
      EndingKeepsSane(s, step, maxFailures);
    } else if step.Reenqueue? || step.RecoverStale? || step.Progress? {
      StoreKeepsSane(s, step, maxFailures);
    } else {
      match step {
        case BlockScopeless(id, now) => UpdateStatusEffect(s.store, id, Blocked, None, Some(NO_SCOPES), now);
        case Start(runId, now) => StartRunEffect(s.store, s.worker.id, runId, now);
        case Begin(now) => UpdateStatusEffect(s.store, s.worker.id, InProgress, None, None, now);
        case Choose(_, _) =>
        case Crash(_) =>
      }
    }
  }

  // Steps that end a run, and how.
  predicate EndsRun(step: Step) {
    step.Throw? || step.Finish?
  }

  function OutcomeOf(step: Step): Outcome
    requires EndsRun(step)
  {
    if step.Throw? then Failure(Some(step.message)) else step.outcome
  }

  // The step ends a run of `id`, which some crash left behind, with another status for the task.
  predicate Changes(s: System, step: Step, maxFailures: nat, id: Id) {
    && id in s.store.tasks && EndsRun(step)
    && var run := CurrentRun(s.store.runs);
       && run.Some? && run.value.sourceTaskId == id
       && EndStatus(s.store.tasks[id], OutcomeOf(step), maxFailures) != s.store.tasks[id].status
  }

  lemma EndingChangesExactly(s: System, step: Step, maxFailures: nat, id: Id)
    requires Sane(s) && Enabled(s, step) && EndsRun(step) && id in s.store.tasks
    ensures var s' := Apply(s, step, maxFailures);
            && id in s'.store.tasks && s'.started == s.started
            && (s'.store.tasks[id].status != s.store.tasks[id].status <==> Changes(s, step, maxFailures, id))
  {
    hide FinishCurrent, Wellformed, CurrentRun;
    FinishCurrentEffect(s.store, OutcomeOf(step), maxFailures, step.now);
  }

  lemma StoreKeepsFinished(s: System, step: Step, maxFailures: nat, id: Id)
    requires Sane(s) && Enabled(s, step) && (step.Reenqueue? || step.RecoverStale? || step.Progress?)
    requires id in s.store.tasks && IsTerminal(s.store.tasks[id].status)
    ensures var s' := Apply(s, step, maxFailures);
            id in s'.store.tasks && s'.started == s.started && s'.store.tasks[id].status == s.store.tasks[id].status
  {
    hide Recover, Enqueue, SetRunStatus, Wellformed;
    match step {
      case Progress(status, now) => SetRunStatusEffect(s.store, s.worker.runId, status, now);
      case Reenqueue(input, now) => EnqueueEffect(s.store, input, now);
      case RecoverStale(cutoff, now) => RecoverEffect(s.store, cutoff, now);
    }
  }

  lemma OthersKeepFinished(s: System, step: Step, maxFailures: nat, id: Id)
    requires Sane(s) && Enabled(s, step) && !EndsRun(step)
    requires id in s.store.tasks && IsTerminal(s.store.tasks[id].status)
    ensures var s' := Apply(s, step, maxFailures);
            && id in s'.store.tasks && s'.started[id] == s.started[id]
            && s'.store.tasks[id].status == s.store.tasks[id].status
  {
    if step.Reenqueue? || step.RecoverStale? || step.Progress? {
      StoreKeepsFinished(s, step, maxFailures, id);
    } else {
      hide UpdateStatus, StartRun, Wellformed;
      match step {
        case BlockScopeless(x, now) => UpdateStatusEffect(s.store, x, Blocked, None, Some(NO_SCOPES), now);
        case Start(runId, now) => StartRunEffect(s.store, s.worker.id, runId, now);
        case Begin(now) => UpdateStatusEffect(s.store, s.worker.id, InProgress, None, None, now);
        case Choose(_, _) =>
        case Crash(_) =>
      }
    }
  }

  /** A step gives a finished task another status exactly when it ends a left-over run of it so. */
  lemma FinishedChangesExactly(s: System, step: Step, maxFailures: nat, id: Id)
    requires Sane(s) && Enabled(s, step)
    requires id in s.store.tasks && IsTerminal(s.store.tasks[id].status)
    ensures var s' := Apply(s, step, maxFailures);
            && id in s'.store.tasks && s'.started[id] == s.started[id]
            && (s'.store.tasks[id].status != s.store.tasks[id].status <==> Changes(s, step, maxFailures, id))
  {
    hide Sane, Enabled, Apply;
    if EndsRun(step) {
      EndingChangesExactly(s, step, maxFailures, id);
    } else {
      OthersKeepFinished(s, step, maxFailures, id);
    }
  }

  ghost predicate KeepsStatus(s: System, steps: seq<Step>, maxFailures: nat, id: Id, status: TaskStatus)
    requires CanRun(s, steps, maxFailures)
    decreases |steps|
  {
    && id in s.store.tasks && s.store.tasks[id].status == status
    && (steps != [] ==> KeepsStatus(Apply(s, steps[0], maxFailures), steps[1..], maxFailures, id, status))
  }

  predicate NeverChanges(s: System, steps: seq<Step>, maxFailures: nat, id: Id)
    requires CanRun(s, steps, maxFailures)
    decreases |steps|
  {
    steps != [] ==>
      && !Changes(s, steps[0], maxFailures, id)
      && NeverChanges(Apply(s, steps[0], maxFailures), steps[1..], maxFailures, id)
  }

  /**
   * Over any run, with any crashes and recoveries: a finished task keeps its status throughout if
   * and only if no step ends a left-over run of it; and then it is never started again.
   */
  lemma {:induction false} FinishedStaysExactly(s: System, steps: seq<Step>, maxFailures: nat, id: Id)
    requires Sane(s) && CanRun(s, steps, maxFailures)
    requires id in s.store.tasks && IsTerminal(s.store.tasks[id].status)
    ensures KeepsStatus(s, steps, maxFailures, id, s.store.tasks[id].status)
            <==> NeverChanges(s, steps, maxFailures, id)
    ensures NeverChanges(s, steps, maxFailures, id) ==> Trace(s, steps, maxFailures).started[id] == s.started[id]
    decreases |steps|
  {
    hide Sane, Enabled, Apply, Changes;
    if steps != [] {
      var s1 := Apply(s, steps[0], maxFailures);
      StepKeepsSane(s, steps[0], maxFailures);
      FinishedChangesExactly(s, steps[0], maxFailures, id);
      if !Changes(s, steps[0], maxFailures, id) {
        FinishedStaysExactly(s1, steps[1..], maxFailures, id);
      } else {
        assert !KeepsStatus(s1, steps[1..], maxFailures, id, s.store.tasks[id].status);
      }
    }
  }

  // No run of the task is active any more.
  predicate NoneLeft(runs: seq<Run>, id: Id) {
    forall i | 0 <= i < |runs| :: runs[i].sourceTaskId == id ==> !IsActive(runs[i].status)
  }

  // If the worker's run is still listed, it is a run of the worker's task.
  predicate OwnIsListed(s: System) {
    s.worker.Started? || s.worker.Working? ==>
      forall i | 0 <= i < |s.store.runs| :: s.store.runs[i].id == s.worker.runId ==>
        s.store.runs[i].sourceTaskId == s.worker.id
  }

  ghost predicate Settled(s: System, id: Id) {
    && Sane(s) && OwnIsListed(s) && NoneLeft(s.store.runs, id)
    && id in s.store.tasks && IsTerminal(s.store.tasks[id].status)
  }

  // The current run is a listed active one, and ending it changes only its place in the list.
  lemma FinishCurrentRuns(s: Store, o: Outcome, maxFailures: nat, now: int) returns (i: nat)
    requires Wellformed(s)
    ensures i <= |s.runs| && (i < |s.runs| <==> CurrentRun(s.runs).Some?)
    ensures forall k | 0 <= k < i :: !IsActive(s.runs[k].status)
    ensures i < |s.runs| ==> CurrentRun(s.runs) == Some(s.runs[i]) && IsActive(s.runs[i].status)
    ensures FinishCurrent(s, o, maxFailures, now).runs ==
            if i < |s.runs| then s.runs[i := Ended(s.runs[i], o, now)] else s.runs
  {
    hide FinishRun, Wellformed;
    i := CurrentRunIsNewest(s.runs);
    if i < |s.runs| {
      RunIndexIsExact(s, i);
      FinishRunEffect(s, s.runs[i].id, o, maxFailures, now);
    }
  }

  lemma EndingKeepsRuns(s: System, step: Step, maxFailures: nat, id: Id)
    requires Settled(s, id) && Enabled(s, step) && EndsRun(step)
    ensures NoneLeft(Apply(s, step, maxFailures).store.runs, id) && !Changes(s, step, maxFailures, id)
  {
    hide FinishCurrent, Wellformed, CurrentRun;
    var i := FinishCurrentRuns(s.store, OutcomeOf(step), maxFailures, step.now);
  }

  lemma ProgressKeepsRuns(s: System, status: RunStatus, now: int, maxFailures: nat, id: Id)
    requires Settled(s, id) && Enabled(s, Progress(status, now))
    ensures var s' := Apply(s, Progress(status, now), maxFailures); NoneLeft(s'.store.runs, id) && OwnIsListed(s')
  {
    hide SetRunStatus, Wellformed;
    SetRunStatusEffect(s.store, s.worker.runId, status, now);
  }

  lemma RecoveryKeepsRuns(s: System, cutoff: int, now: int, maxFailures: nat, id: Id)
    requires Settled(s, id) && Enabled(s, RecoverStale(cutoff, now))
    ensures var s' := Apply(s, RecoverStale(cutoff, now), maxFailures); NoneLeft(s'.store.runs, id) && OwnIsListed(s')
  {
    hide Recover, Wellformed;
    RecoverEffect(s.store, cutoff, now);
  }

  lemma StepKeepsRuns(s: System, step: Step, maxFailures: nat, id: Id)
    requires Settled(s, id) && Enabled(s, step) && !EndsRun(step)
    ensures var s' := Apply(s, step, maxFailures); NoneLeft(s'.store.runs, id) && OwnIsListed(s')
  {
    hide Recover, UpdateStatus, StartRun, Enqueue, SetRunStatus, Wellformed, NoneLeft;
    match step {
      case Start(runId, now) => StartKeepsRuns(s, runId, now, maxFailures, id);
      case Progress(status, now) => ProgressKeepsRuns(s, status, now, maxFailures, id);
      case RecoverStale(cutoff, now) => RecoveryKeepsRuns(s, cutoff, now, maxFailures, id);
      case BlockScopeless(x, now) => UpdateStatusEffect(s.store, x, Blocked, None, Some(NO_SCOPES), now);
      case Begin(now) => UpdateStatusEffect(s.store, s.worker.id, InProgress, None, None, now);
      case Reenqueue(input, now) => EnqueueEffect(s.store, input, now);
      case Choose(_, _) =>
      case Crash(_) =>
    }
  }

  lemma StartKeepsRuns(s: System, runId: Id, now: int, maxFailures: nat, id: Id)
    requires Settled(s, id) && Enabled(s, Start(runId, now))
    ensures var s' := Apply(s, Start(runId, now), maxFailures); NoneLeft(s'.store.runs, id) && OwnIsListed(s')
  {
    hide StartRun, Wellformed;
    StartRunEffect(s.store, s.worker.id, runId, now);
    var runs := Apply(s, Start(runId, now), maxFailures).store.runs;
    assert forall i | 1 <= i < |runs| :: runs[i] == runs[1..][i - 1] == s.store.runs[i - 1];
  }

  lemma StepKeepsSettled(s: System, step: Step, maxFailures: nat, id: Id)
    requires Settled(s, id) && Enabled(s, step)
    ensures var s' := Apply(s, step, maxFailures);
            Settled(s', id) && s'.store.tasks[id].status == s.store.tasks[id].status && s'.started[id] == s.started[id]
  {
    hide NoneLeft, Changes, FinishCurrent, Recover, UpdateStatus, StartRun, Enqueue, SetRunStatus, Wellformed;
    StepKeepsSane(s, step, maxFailures);
    FinishedChangesExactly(s, step, maxFailures, id);
    if EndsRun(step) {
      EndingKeepsRuns(s, step, maxFailures, id);
    } else {
      StepKeepsRuns(s, step, maxFailures, id);
      assert !Changes(s, step, maxFailures, id) by { OnlyEndingChanges(s, step, maxFailures, id); }
    }
  }

  lemma OnlyEndingChanges(s: System, step: Step, maxFailures: nat, id: Id)
    requires !EndsRun(step)
    ensures !Changes(s, step, maxFailures, id)
  {
  }

  /** With no run of it left, a finished task keeps its status and is not started, whatever is done. */
  lemma {:induction false} SettledStays(s: System, steps: seq<Step>, maxFailures: nat, id: Id)
    requires Settled(s, id) && CanRun(s, steps, maxFailures)
    ensures KeepsStatus(s, steps, maxFailures, id, s.store.tasks[id].status)
    ensures Trace(s, steps, maxFailures).started[id] == s.started[id]
    decreases |steps|
  {
    assert id in s.store.tasks;
    if steps != [] {
      StepKeepsSettled(s, steps[0], maxFailures, id);
      hide Settled, Enabled, Apply;
      SettledStays(Apply(s, steps[0], maxFailures), steps[1..], maxFailures, id);
    }
  }

  // A finished task that an exception would give another status, with an active run of it at place
  // i, and none active before place j.
  ghost predicate Exposed(s: System, maxFailures: nat, id: Id, i: nat, j: nat) {
    && Sane(s) && id in s.store.tasks && IsTerminal(s.store.tasks[id].status)
    && EndStatus(s.store.tasks[id], Failure(None), maxFailures) != s.store.tasks[id].status
    && j <= i < |s.store.runs| && s.store.runs[i].sourceTaskId == id && IsActive(s.store.runs[i].status)
    && forall k | 0 <= k < j :: !IsActive(s.store.runs[k].status)
  }

  lemma ExceptionMovesOn(s: System, maxFailures: nat, id: Id, i: nat, j: nat)
    requires Exposed(s, maxFailures, id, i, j) && IsActive(s.store.runs[j].status)
    ensures var s' := Apply(s, Throw("", s.clock), maxFailures);
            && id in s'.store.tasks
            && if s.store.runs[j].sourceTaskId == id then s'.store.tasks[id].status != s.store.tasks[id].status
               else s'.store.tasks[id].status == s.store.tasks[id].status && Exposed(s', maxFailures, id, i, j + 1)
  {
    hide FinishCurrent, Wellformed, CurrentRun;
    var step := Throw("", s.clock);
    var first := FinishCurrentRuns(s.store, Failure(Some("")), maxFailures, s.clock);
    StepKeepsSane(s, step, maxFailures);
    FinishCurrentEffect(s.store, Failure(Some("")), maxFailures, s.clock);
  }

  /** A run of it left active lets exceptions, one after the other, give it another status. */
  lemma {:induction false} ExceptionsReachIt(s: System, maxFailures: nat, id: Id, i: nat, j: nat)
      returns (steps: seq<Step>)
    requires Exposed(s, maxFailures, id, i, j)
    ensures CanRun(s, steps, maxFailures)
    ensures id in s.store.tasks && !KeepsStatus(s, steps, maxFailures, id, s.store.tasks[id].status)
    decreases i - j
  {
    assert id in s.store.tasks && j <= i < |s.store.runs|;
    if !IsActive(s.store.runs[j].status) {
      steps := ExceptionsReachIt(s, maxFailures, id, i, j + 1);
    } else {
      var step := Throw("", s.clock);
      var s1 := Apply(s, step, maxFailures);
      ExceptionMovesOn(s, maxFailures, id, i, j);
      hide Apply, Exposed;
      if s.store.runs[j].sourceTaskId == id {
        steps := [step];
        assert steps[1..] == [] && !KeepsStatus(s1, [], maxFailures, id, s.store.tasks[id].status);
      } else {
        var rest := ExceptionsReachIt(s1, maxFailures, id, i, j + 1);
        steps := [step] + rest;
        assert steps[1..] == rest;
      }
    }
  }

  /**
   * From the store at hand, a finished task is safe, whatever steps follow, crashes and recoveries
   * included, if and only if no run of it is active: whenever an exception would reopen it.
   */
  lemma FinishedIsSafeExactly(s: System, maxFailures: nat, id: Id)
    requires Sane(s) && OwnIsListed(s) && id in s.store.tasks && IsTerminal(s.store.tasks[id].status)
    requires EndStatus(s.store.tasks[id], Failure(None), maxFailures) != s.store.tasks[id].status
    ensures NoneLeft(s.store.runs, id) <==>
            forall steps | CanRun(s, steps, maxFailures) ::
              KeepsStatus(s, steps, maxFailures, id, s.store.tasks[id].status)
  {
    if NoneLeft(s.store.runs, id) {
      forall steps | CanRun(s, steps, maxFailures)
        ensures KeepsStatus(s, steps, maxFailures, id, s.store.tasks[id].status)
      {
        SettledStays(s, steps, maxFailures, id);
      }
    } else {
      var i :| 0 <= i < |s.store.runs| && s.store.runs[i].sourceTaskId == id && IsActive(s.store.runs[i].status);
      var steps := ExceptionsReachIt(s, maxFailures, id, i, 0);
    }
  }

  /**
   * An exception reopens a finished task exactly when the current run, left behind by an earlier
   * crash, belongs to that task and the task has attempts left.
   */
  lemma ExceptionReopensExactly(s: System, message: string, now: int, maxFailures: nat, id: Id)
    requires Wellformed(s.store) && s.clock <= now
    requires id in s.store.tasks && IsTerminal(s.store.tasks[id].status)
    ensures var s' := Apply(s, Throw(message, now), maxFailures);
            var run := CurrentRun(s.store.runs);
            id in s'.store.tasks &&
            (!IsTerminal(s'.store.tasks[id].status) <==>
               run.Some? && run.value.sourceTaskId == id && s.store.tasks[id].runCount < maxFailures)
  {
    hide FinishCurrent, Wellformed, CurrentRun;
    FinishCurrentEffect(s.store, Failure(Some(message)), maxFailures, now);
  }

  // ---- Backing off -------------------------------------------------------------------------

  // The task failed at `since` with `runs` runs, and has not been started again.
  ghost predicate Waiting(s: System, id: Id, since: int, runs: nat) {
    && id in s.store.tasks
    && since <= s.clock
    && var t := s.store.tasks[id];
       && (t.status.Failed? || t.status.Blocked? || IsTerminal(t.status))
       && t.runCount == runs
       && (t.status.Failed? ==> since <= t.updatedAt)
       && (s.worker.Chosen? && s.worker.id == id ==> since + RetryDelay(Failed, runs) <= s.clock)
       && (s.worker.Started? || s.worker.Working? ==> s.worker.id != id)
  }

  lemma EndingKeepsWaiting(s: System, step: Step, maxFailures: nat, id: Id, since: int, runs: nat)
    requires Sane(s) && Enabled(s, step) && Waiting(s, id, since, runs) && EndsRun(step)
    ensures Waiting(Apply(s, step, maxFailures), id, since, runs)
  {
    hide FinishCurrent, Wellformed, CurrentRun, RetryDelay;
    FinishCurrentEffect(s.store, OutcomeOf(step), maxFailures, step.now);
  }

  lemma StoreKeepsWaiting(s: System, step: Step, maxFailures: nat, id: Id, since: int, runs: nat)
    requires Sane(s) && Enabled(s, step) && Waiting(s, id, since, runs)
    requires step.Reenqueue? || step.RecoverStale? || step.Progress?
    ensures Waiting(Apply(s, step, maxFailures), id, since, runs)
  {
    hide Recover, Enqueue, SetRunStatus, Wellformed, RetryDelay;
    match step {
      case Progress(status, now) => SetRunStatusEffect(s.store, s.worker.runId, status, now);
      case Reenqueue(input, now) => EnqueueEffect(s.store, input, now);
      case RecoverStale(cutoff, now) => RecoverEffect(s.store, cutoff, now);
    }
  }

  lemma StepKeepsWaiting(s: System, step: Step, maxFailures: nat, id: Id, since: int, runs: nat)
    requires Sane(s) && Enabled(s, step) && Waiting(s, id, since, runs)
    ensures (step.Start? && s.worker.id == id) || Waiting(Apply(s, step, maxFailures), id, since, runs)
    ensures step.Start? && s.worker.id == id ==> since + RetryDelay(Failed, runs) <= step.now
  {
    if EndsRun(step) {
      EndingKeepsWaiting(s, step, maxFailures, id, since, runs);
    } else if step.Reenqueue? || step.RecoverStale? || step.Progress? {
      StoreKeepsWaiting(s, step, maxFailures, id, since, runs);
    } else {
      hide UpdateStatus, StartRun, Wellformed, RetryDelay;
      match step {
        case BlockScopeless(x, now) => UpdateStatusEffect(s.store, x, Blocked, None, Some(NO_SCOPES), now);
        case Start(runId, now) => StartRunEffect(s.store, s.worker.id, runId, now);
        case Begin(now) => UpdateStatusEffect(s.store, s.worker.id, InProgress, None, None, now);
        case Choose(x, now) => EligibleWaits(s.store.tasks[id], now);
        case Crash(_) =>
      }
    }
  }

  lemma EligibleWaits(t: Task, now: int)
    ensures t.status.Failed? && Eligible(t, now) ==> t.updatedAt + RetryDelay(Failed, t.runCount) <= now
  {
  }

  /**
   * After a failure at `since` with `runs` runs, the next start of that task comes at least the
   * retry delay later, whatever re-enqueues, recoveries, crashes and other work come between.
   */
  lemma {:induction false} NextRunWaits(
      s: System, steps: seq<Step>, maxFailures: nat, id: Id, since: int, runs: nat)
    requires Sane(s) && CanRun(s, steps, maxFailures) && Waiting(s, id, since, runs)
    ensures var s' := Trace(s, steps, maxFailures);
            s'.started[id] > s.started[id] ==> since + RetryDelay(Failed, runs) <= s'.clock
    decreases |steps|
  {
    hide Sane, Waiting, RetryDelay;
    if steps != [] {
      var s1 := Apply(s, steps[0], maxFailures);
      StepKeepsWaiting(s, steps[0], maxFailures, id, since, runs);
      StepKeepsSane(s, steps[0], maxFailures);
      if steps[0].Start? && s.worker.id == id {
        ClockRunsForward(s1, steps[1..], maxFailures);
      } else {
        NextRunWaits(s1, steps[1..], maxFailures, id, since, runs);
      }
    }
  }

  lemma {:induction false} ClockRunsForward(s: System, steps: seq<Step>, maxFailures: nat)
    requires CanRun(s, steps, maxFailures)
    ensures s.clock <= Trace(s, steps, maxFailures).clock
    decreases |steps|
  {
    if steps != [] {
      ClockRunsForward(Apply(s, steps[0], maxFailures), steps[1..], maxFailures);
    }
  }

  // The step fails a run of `id`.
  predicate FailsRunOf(s: System, step: Step, id: Id) {
    && EndsRun(step) && OutcomeOf(step).Failure? && id in s.store.tasks
    && CurrentRun(s.store.runs).Some? && CurrentRun(s.store.runs).value.sourceTaskId == id
  }

  lemma FailureStartsWaiting(s: System, step: Step, maxFailures: nat, id: Id)
    requires Sane(s) && Enabled(s, step) && FailsRunOf(s, step, id)
    ensures var s', k := Apply(s, step, maxFailures), s.store.tasks[id].runCount;
            && Waiting(s', id, step.now, k) && s'.started == s.started && id in s'.store.tasks
            && s'.store.tasks[id].status == if k < maxFailures then Failed else Discarded
  {
    hide FinishCurrent, Wellformed, RetryDelay, CurrentRun;
    FinishCurrentEffect(s.store, OutcomeOf(step), maxFailures, step.now);
  }

  /**
   * A run that fails, by result or by exception: whatever comes between, its task is started again
   * no sooner than the retry delay for its run count. With no attempts left it is discarded, and
   * unless an active run of it is left over, it is never started again.
   */
  lemma FailedRunBacksOff(s: System, step: Step, steps: seq<Step>, maxFailures: nat, id: Id)
    requires Sane(s) && Enabled(s, step) && FailsRunOf(s, step, id)
    requires CanRun(Apply(s, step, maxFailures), steps, maxFailures)
    ensures var s1, k := Apply(s, step, maxFailures), s.store.tasks[id].runCount;
            var s' := Trace(s1, steps, maxFailures);
            && (s'.started[id] > s.started[id] ==> step.now + RetryDelay(Failed, k) <= s'.clock)
            && (k >= maxFailures && NeverChanges(s1, steps, maxFailures, id) ==> s'.started[id] == s.started[id])
            && (k >= maxFailures && NoneLeft(s1.store.runs, id) ==> s'.started[id] == s.started[id])
  {
    hide Apply, Enabled, Waiting, RetryDelay, Sane, Changes;
    var s1, k := Apply(s, step, maxFailures), s.store.tasks[id].runCount;
    FailureStartsWaiting(s, step, maxFailures, id);
    StepKeepsSane(s, step, maxFailures);
    NextRunWaits(s1, steps, maxFailures, id, step.now, k);
    if k >= maxFailures {
      FinishedStaysExactly(s1, steps, maxFailures, id);
      if NoneLeft(s1.store.runs, id) {
        assert OwnIsListed(s1) by { EndingRests(s, step, maxFailures); }
        SettledStays(s1, steps, maxFailures, id);
      }
    }
  }

  lemma EndingRests(s: System, step: Step, maxFailures: nat)
    requires Enabled(s, step) && EndsRun(step)
    ensures Apply(s, step, maxFailures).worker.Resting?
  {
  }
}
