/**
 * The agent's task store: source tasks and their runs. The functions say what each operation does
 * to the store's value; the class at the end does it in place.
 */
module TaskStore {
  import opened Options
  import opened Sequences

  type Id = string

  datatype TaskStatus = Queued | Selected | InProgress | Failed | Blocked | Succeeded | Discarded

  datatype RunStatus =
    | RunSelected | Analyzing | Executing | Verifying
    | RunSucceeded | RunFailed | RunBlocked | RunDiscarded

  datatype Task = Task(
    id: Id, title: string, priority: real, status: TaskStatus, editScopes: seq<string>,
    backlogSequence: Option<int>, lastError: Option<string>, blockedReason: Option<string>,
    recoveryCount: nat, runCount: nat, createdAt: int, updatedAt: int)

  // What callers of an upsert pass: four fields may be left out.
  datatype TaskInput = TaskInput(
    id: Id, title: string, priority: real, status: TaskStatus, editScopes: seq<string>,
    backlogSequence: Option<int>, lastError: Option<string>, blockedReason: Option<string>,
    recoveryCount: Option<nat>, runCount: Option<nat>, createdAt: Option<int>, updatedAt: Option<int>)

  datatype Run = Run(
    id: Id, sourceTaskId: Id, status: RunStatus, failureReason: Option<string>,
    blockedReason: Option<string>, startedAt: int, updatedAt: int, completedAt: Option<int>)

  // `order` is the insertion order of the task map.
  datatype Store = Store(order: seq<Id>, tasks: map<Id, Task>, runs: seq<Run>)

  const RUN_CAP := 200
  const RECOVERED := "Recovered stale work."
  const EXHAUSTED := "Moved to dead-letter queue."
  const NO_SCOPES := "No safe edit scopes are defined for this task."

  predicate IsTerminal(status: TaskStatus) {
    status.Succeeded? || status.Discarded?
  }

  predicate IsActive(status: RunStatus) {
    status.RunSelected? || status.Analyzing? || status.Executing? || status.Verifying?
  }

  // `a ?? b`
  function Else<T>(a: Option<T>, b: T): T {
    if a.Some? then a.value else b
  }

  function OrElse<T>(a: Option<T>, b: Option<T>): Option<T> {
    if a.Some? then a else b
  }

  function AsInput(t: Task): TaskInput {
    TaskInput(t.id, t.title, t.priority, t.status, t.editScopes, t.backlogSequence, t.lastError,
              t.blockedReason, Some(t.recoveryCount), Some(t.runCount), Some(t.createdAt), Some(t.updatedAt))
  }

  function Merged(existing: Option<Task>, input: TaskInput, now: int): Task {
    Task(input.id, input.title, input.priority, input.status, input.editScopes, input.backlogSequence,
         input.lastError, input.blockedReason,
         if existing.Some? then existing.value.recoveryCount else Else(input.recoveryCount, 0),
         if existing.Some? then existing.value.runCount else Else(input.runCount, 0),
         if existing.Some? then existing.value.createdAt else Else(input.createdAt, now),
         Else(input.updatedAt, now))
  }

  function Lookup(s: Store, id: Id): Option<Task> {
    if id in s.tasks then Some(s.tasks[id]) else None
  }

  function Upsert(s: Store, input: TaskInput, now: int): Store {
    s.(order := if input.id in s.tasks then s.order else s.order + [input.id],
       tasks := s.tasks[input.id := Merged(Lookup(s, input.id), input, now)])
  }

  // A missing error or reason keeps the old one.
  function UpdateStatus(
      s: Store, id: Id, status: TaskStatus, error: Option<string>, reason: Option<string>, now: int): Store {
    if id !in s.tasks then s
    else
      var t := s.tasks[id];
      Upsert(s, AsInput(t.(status := status, lastError := OrElse(error, t.lastError),
                           blockedReason := OrElse(reason, t.blockedReason), updatedAt := now)), now)
  }

  // Newest first, and no more than the cap.
  function WithRun(runs: seq<Run>, run: Run): seq<Run> {
    var all := [run] + runs;
    if |all| > RUN_CAP then all[..RUN_CAP] else all
  }

  function StartRun(s: Store, id: Id, runId: Id, now: int): Store {
    var runs := WithRun(s.runs, Run(runId, id, RunSelected, None, None, now, now, None));
    var s1 := UpdateStatus(s.(runs := runs), id, Selected, None, None, now);
    if id !in s1.tasks then s1
    else
      var t := s1.tasks[id];
      s1.(tasks := s1.tasks[id := t.(runCount := t.runCount + 1, updatedAt := now)])
  }

  function RunIndex(runs: seq<Run>, runId: Id): (i: nat)
    ensures i <= |runs|
    ensures i < |runs| ==> runs[i].id == runId
    ensures forall k | 0 <= k < i :: runs[k].id != runId
  {
    if runs == [] || runs[0].id == runId then 0 else 1 + RunIndex(runs[1..], runId)
  }

  // What an update of a run may set: a field left out is None, a field cleared is Some(None).
  datatype RunUpdate = RunUpdate(
    status: Option<RunStatus>, failureReason: Option<Option<string>>,
    blockedReason: Option<Option<string>>, completedAt: Option<Option<int>>)

  function Patched(run: Run, u: RunUpdate, now: int): Run {
    run.(status := Else(u.status, run.status),
         failureReason := Else(u.failureReason, run.failureReason),
         blockedReason := Else(u.blockedReason, run.blockedReason),
         completedAt := Else(u.completedAt, run.completedAt),
         updatedAt := now)
  }

  function PatchRun(s: Store, runId: Id, u: RunUpdate, now: int): Store {
    var i := RunIndex(s.runs, runId);
    if i == |s.runs| then s else s.(runs := s.runs[i := Patched(s.runs[i], u, now)])
  }

  function SetRunStatus(s: Store, runId: Id, status: RunStatus, now: int): Store {
    PatchRun(s, runId, RunUpdate(Some(status), None, None, None), now)
  }

  datatype Outcome = Success | Failure(reason: Option<string>) | Stopped(reason: Option<string>) | Dropped

  function RunEnd(o: Outcome): RunStatus {
    match o
    case Success => RunSucceeded
    case Failure(_) => RunFailed
    case Stopped(_) => RunBlocked
    case Dropped => RunDiscarded
  }

  function TaskEnd(o: Outcome): TaskStatus {
    match o
    case Success => Succeeded
    case Failure(_) => Failed
    case Stopped(_) => Blocked
    case Dropped => Discarded
  }

  function ErrorOf(o: Outcome): Option<string> {
    if o.Failure? then o.reason else None
  }

  function ReasonOf(o: Outcome): Option<string> {
    if o.Stopped? then o.reason else None
  }

  function Ended(run: Run, o: Outcome, now: int): Run {
    run.(status := RunEnd(o), failureReason := ErrorOf(o), blockedReason := ReasonOf(o),
         updatedAt := now, completedAt := Some(now))
  }

  function EndOf(o: Outcome, now: int): RunUpdate {
    RunUpdate(Some(RunEnd(o)), Some(ErrorOf(o)), Some(ReasonOf(o)), Some(Some(now)))
  }

  function DeadLetterIfExhausted(s: Store, id: Id, maxFailures: nat, now: int): Store {
    if id !in s.tasks || s.tasks[id].runCount < maxFailures then s
    else Upsert(s, AsInput(s.tasks[id].(status := Discarded, blockedReason := Some(EXHAUSTED), updatedAt := now)), now)
  }

  function FinishRun(s: Store, runId: Id, o: Outcome, maxFailures: nat, now: int): Store {
    var i := RunIndex(s.runs, runId);
    if i == |s.runs| then s
    else
      var run := Ended(s.runs[i], o, now);
      var s1 := s.(runs := s.runs[i := run]);
      var s2 := UpdateStatus(s1, run.sourceTaskId, TaskEnd(o), run.failureReason, run.blockedReason, now);
      if o.Failure? then DeadLetterIfExhausted(s2, run.sourceTaskId, maxFailures, now) else s2
  }

  function CurrentRun(runs: seq<Run>): Option<Run> {
    if runs == [] then None
    else if IsActive(runs[0].status) then Some(runs[0])
    else CurrentRun(runs[1..])
  }

  predicate StaleTask(t: Task, cutoff: int) {
    (t.status.Selected? || t.status.InProgress?) && t.updatedAt <= cutoff
  }

  predicate StaleRun(run: Run, cutoff: int) {
    IsActive(run.status) && run.updatedAt <= cutoff
  }

  // The recovery count is left as it was: an upsert keeps the stored one.
  function RecoveredTask(t: Task, cutoff: int, now: int): Task {
    if StaleTask(t, cutoff)
    then t.(status := Queued, blockedReason := None, lastError := Some(RECOVERED), updatedAt := now)
    else t
  }

  function RecoveredRun(run: Run, cutoff: int, now: int): Run {
    if StaleRun(run, cutoff)
    then run.(status := RunFailed, failureReason := Some(RECOVERED), updatedAt := now, completedAt := Some(now))
    else run
  }

  function Recover(s: Store, cutoff: int, now: int): Store {
    Store(s.order,
          map id | id in s.tasks :: RecoveredTask(s.tasks[id], cutoff, now),
          seq(|s.runs|, i requires 0 <= i < |s.runs| => RecoveredRun(s.runs[i], cutoff, now)))
  }

  // The status of a known task is kept, a new one is queued.
  function Enqueue(s: Store, c: TaskInput, now: int): Store {
    var existing := Lookup(s, c.id);
    Upsert(s, c.(
      status := if existing.Some? then existing.value.status else Queued,
      lastError := if existing.Some? then existing.value.lastError else None,
      blockedReason :=
        var prior := if existing.Some? then existing.value.blockedReason else None;
        if c.editScopes == [] then OrElse(prior, Some(NO_SCOPES)) else prior,
      runCount := Some(if existing.Some? then existing.value.runCount else 0),
      recoveryCount := None,
      createdAt := if existing.Some? then Some(existing.value.createdAt) else c.createdAt,
      updatedAt := None), now)
  }

  ghost predicate RunIdsDistinct(runs: seq<Run>) {
    forall i, j | 0 <= i < j < |runs| :: runs[i].id != runs[j].id
  }

  ghost predicate Wellformed(s: Store) {
    && Distinct(s.order)
    && (forall id :: id in s.order <==> id in s.tasks)
    && (forall id | id in s.tasks :: s.tasks[id].id == id)
    && RunIdsDistinct(s.runs)
  }

  // A recovery that has got as far as `done`.
  ghost function PartlyRecovered(tasks: map<Id, Task>, done: seq<Id>, cutoff: int, now: int): map<Id, Task> {
    map id | id in tasks :: if id in done then RecoveredTask(tasks[id], cutoff, now) else tasks[id]
  }

  lemma RecoverOneMore(tasks: map<Id, Task>, done: seq<Id>, id: Id, cutoff: int, now: int)
    requires id in tasks && id !in done
    ensures PartlyRecovered(tasks, done, cutoff, now)[id] == tasks[id]
    ensures PartlyRecovered(tasks, done + [id], cutoff, now) ==
            PartlyRecovered(tasks, done, cutoff, now)[id := RecoveredTask(tasks[id], cutoff, now)]
  {
  }

  lemma AllRecovered(tasks: map<Id, Task>, done: seq<Id>, cutoff: int, now: int)
    requires forall id | id in tasks :: id in done
    ensures PartlyRecovered(tasks, [], cutoff, now) == tasks
    ensures PartlyRecovered(tasks, done, cutoff, now) == map id | id in tasks :: RecoveredTask(tasks[id], cutoff, now)
  {
  }

  // ---- What the operations change --------------------------------------------------------

  /** A status update changes one task's status, reasons and time, and nothing else. */
  lemma UpdateStatusEffect(
      s: Store, id: Id, status: TaskStatus, error: Option<string>, reason: Option<string>, now: int)
    requires Wellformed(s) && id in s.tasks
    ensures var t := s.tasks[id];
            UpdateStatus(s, id, status, error, reason, now) ==
            s.(tasks := s.tasks[id := t.(status := status, lastError := OrElse(error, t.lastError),
                                         blockedReason := OrElse(reason, t.blockedReason), updatedAt := now)])
    ensures Wellformed(UpdateStatus(s, id, status, error, reason, now))
  {
  }

  /** A started run is the newest, of at most the cap, and its task is selected and counted. */
  lemma StartRunEffect(s: Store, id: Id, runId: Id, now: int)
    requires Wellformed(s) && id in s.tasks && forall i | 0 <= i < |s.runs| :: s.runs[i].id != runId
    ensures var s' := StartRun(s, id, runId, now);
            && s'.order == s.order
            && s'.tasks == s.tasks[id := s.tasks[id].(
                 status := Selected, runCount := s.tasks[id].runCount + 1, updatedAt := now)]
            && |s'.runs| == (if |s.runs| >= 200 then 200 else |s.runs| + 1)
            && s'.runs[0] == Run(runId, id, RunSelected, None, None, now, now, None)
            && s'.runs[1..] == s.runs[..|s'.runs| - 1]
            && Wellformed(s')
  {
    var runs := WithRun(s.runs, Run(runId, id, RunSelected, None, None, now, now, None));
    WithRunKeepsDistinct(s.runs, runs[0]);
    assert Wellformed(s.(runs := runs));
    UpdateStatusEffect(s.(runs := runs), id, Selected, None, None, now);
  }

  lemma WithRunKeepsDistinct(runs: seq<Run>, run: Run)
    requires RunIdsDistinct(runs) && forall i | 0 <= i < |runs| :: runs[i].id != run.id
    ensures RunIdsDistinct(WithRun(runs, run))
    ensures WithRun(runs, run)[0] == run && WithRun(runs, run)[1..] == runs[..|WithRun(runs, run)| - 1]
  {
    var all, out := [run] + runs, WithRun(runs, run);
    assert forall i | 1 <= i < |all| :: all[i] == runs[i - 1];
    assert forall i | 0 <= i < |out| :: out[i] == all[i];
  }

  /** Re-enqueueing keeps every other task, and this one's status, run count and age. */
  lemma EnqueueEffect(s: Store, c: TaskInput, now: int)
    requires Wellformed(s)
    ensures var s' := Enqueue(s, c, now);
            && s'.runs == s.runs && Wellformed(s')
            && s'.tasks.Keys == s.tasks.Keys + {c.id}
            && (forall x | x in s.tasks && x != c.id :: s'.tasks[x] == s.tasks[x])
            && var t := s'.tasks[c.id];
               t.updatedAt == now
               && if c.id in s.tasks then
                    t.status == s.tasks[c.id].status && t.runCount == s.tasks[c.id].runCount
                    && t.createdAt == s.tasks[c.id].createdAt
                  else t.status == Queued && t.runCount == 0
  {
    var s' := Enqueue(s, c, now);
    if c.id !in s.tasks {
      assert s'.order[|s.order|] == c.id;
      assert forall id | id in s.order :: id in s'.order;
    }
  }

  /**
   * Re-enqueueing keeps every other task, and this one's status, counts, error, age and place, and
   * takes over what describes it; a task without scopes gets a reason if it has none.
   */
  lemma EnqueueMeans(s: Store, c: TaskInput, now: int)
    requires Wellformed(s)
    ensures var s' := Enqueue(s, c, now);
            && c.id in s'.tasks && s'.order == s.order + (if c.id in s.tasks then [] else [c.id])
            && var t := s'.tasks[c.id];
               && t.id == c.id && t.title == c.title && t.priority == c.priority && t.editScopes == c.editScopes
               && t.backlogSequence == c.backlogSequence && t.updatedAt == now
               && (c.id in s.tasks ==>
                     var was := s.tasks[c.id];
                     && t.status == was.status && t.runCount == was.runCount && t.createdAt == was.createdAt
                     && t.recoveryCount == was.recoveryCount && t.lastError == was.lastError
                     && t.blockedReason == if c.editScopes == [] && was.blockedReason.None? then Some(NO_SCOPES)
                                           else was.blockedReason)
               && (c.id !in s.tasks ==>
                     && t.status == Queued && t.runCount == 0 && t.recoveryCount == 0 && t.lastError == None
                     && t.blockedReason == (if c.editScopes == [] then Some(NO_SCOPES) else None)
                     && t.createdAt == if c.createdAt.Some? then c.createdAt.value else now)
  {
  }

  // What a run says once it has ended with an outcome.
  ghost predicate ShowsOutcome(run: Run, o: Outcome, now: int) {
    && run.completedAt == Some(now) && run.updatedAt == now
    && match o
       case Success => run.status == RunSucceeded && run.failureReason == None && run.blockedReason == None
       case Failure(reason) => run.status == RunFailed && run.failureReason == reason && run.blockedReason == None
       case Stopped(reason) => run.status == RunBlocked && run.failureReason == None && run.blockedReason == reason
       case Dropped => run.status == RunDiscarded && run.failureReason == None && run.blockedReason == None
  }

  // What its task says: an outcome without a reason leaves the old reason standing, and a failure
  // with no attempts left discards the task.
  ghost predicate TakesOutcome(was: Task, t: Task, o: Outcome, maxFailures: nat, now: int) {
    && t == was.(status := t.status, lastError := t.lastError, blockedReason := t.blockedReason, updatedAt := now)
    && match o
       case Success =>
         t.status == Succeeded && t.lastError == was.lastError && t.blockedReason == was.blockedReason
       case Failure(reason) =>
         && t.lastError == (if reason.Some? then reason else was.lastError)
         && if was.runCount >= maxFailures then t.status == Discarded && t.blockedReason == Some(EXHAUSTED)
            else t.status == Failed && t.blockedReason == was.blockedReason
       case Stopped(reason) =>
         && t.status == Blocked && t.lastError == was.lastError
         && t.blockedReason == if reason.Some? then reason else was.blockedReason
       case Dropped =>
         t.status == Discarded && t.lastError == was.lastError && t.blockedReason == was.blockedReason
  }

  lemma EndedShowsOutcome(run: Run, o: Outcome, now: int)
    ensures ShowsOutcome(Ended(run, o, now), o, now)
    ensures var run' := Ended(run, o, now);
            run'.id == run.id && run'.sourceTaskId == run.sourceTaskId && run'.startedAt == run.startedAt
  {
  }

  // What finishing does to the task, once the run has ended.
  function FinishTask(s: Store, id: Id, o: Outcome, maxFailures: nat, now: int): Store {
    var s' := UpdateStatus(s, id, TaskEnd(o), ErrorOf(o), ReasonOf(o), now);
    if o.Failure? then DeadLetterIfExhausted(s', id, maxFailures, now) else s'
  }

  lemma TaskTakesOutcome(s: Store, id: Id, o: Outcome, maxFailures: nat, now: int)
    requires Wellformed(s) && id in s.tasks
    ensures var s' := FinishTask(s, id, o, maxFailures, now);
            && Wellformed(s') && id in s'.tasks && s' == s.(tasks := s.tasks[id := s'.tasks[id]])
            && TakesOutcome(s.tasks[id], s'.tasks[id], o, maxFailures, now)
  {
    hide UpdateStatus;
    UpdateStatusEffect(s, id, TaskEnd(o), ErrorOf(o), ReasonOf(o), now);
  }

  lemma OutcomeMeansStatus(was: Task, t: Task, o: Outcome, maxFailures: nat, now: int)
    requires TakesOutcome(was, t, o, maxFailures, now)
    ensures t.runCount == was.runCount && t.updatedAt == now
    ensures t.status == if o.Failure? && was.runCount >= maxFailures then Discarded else TaskEnd(o)
  {
  }

  /** Ending a run ends that run with the outcome, and gives it to its task; nothing else changes. */
  lemma FinishRunEffect(s: Store, runId: Id, o: Outcome, maxFailures: nat, now: int)
    requires Wellformed(s) && RunIndex(s.runs, runId) < |s.runs|
    ensures var i := RunIndex(s.runs, runId);
            var s', id := FinishRun(s, runId, o, maxFailures, now), s.runs[i].sourceTaskId;
            && Wellformed(s') && s'.order == s.order
            && s'.runs == s.runs[i := Ended(s.runs[i], o, now)]
            && ShowsOutcome(s'.runs[i], o, now)
            && (id !in s.tasks ==> s'.tasks == s.tasks)
            && (id in s.tasks ==>
                  && s'.tasks == s.tasks[id := s'.tasks[id]]
                  && TakesOutcome(s.tasks[id], s'.tasks[id], o, maxFailures, now)
                  && s'.tasks[id].runCount == s.tasks[id].runCount && s'.tasks[id].updatedAt == now
                  && s'.tasks[id].status == if o.Failure? && s.tasks[id].runCount >= maxFailures then Discarded
                                            else TaskEnd(o))
  {
    var i := RunIndex(s.runs, runId);
    var run := Ended(s.runs[i], o, now);
    var s1 := s.(runs := s.runs[i := run]);
    EndedShowsOutcome(s.runs[i], o, now);
    assert RunIdsDistinct(s1.runs);
    assert Wellformed(s1);
    assert FinishRun(s, runId, o, maxFailures, now) == FinishTask(s1, run.sourceTaskId, o, maxFailures, now);
    hide FinishRun, FinishTask, TakesOutcome, ShowsOutcome, Ended, Wellformed, TaskEnd;
    if run.sourceTaskId in s.tasks {
      TaskTakesOutcome(s1, run.sourceTaskId, o, maxFailures, now);
      var t := FinishTask(s1, run.sourceTaskId, o, maxFailures, now).tasks[run.sourceTaskId];
      OutcomeMeansStatus(s.tasks[run.sourceTaskId], t, o, maxFailures, now);
    } else {
      UnknownTakesNothing(s1, run.sourceTaskId, o, maxFailures, now);
    }
  }

  lemma UnknownTakesNothing(s: Store, id: Id, o: Outcome, maxFailures: nat, now: int)
    requires id !in s.tasks
    ensures FinishTask(s, id, o, maxFailures, now) == s
  {
  }

  /** What a recovery makes of stale tasks and runs, and that it leaves the others. */
  lemma RecoveredMeans(t: Task, run: Run, cutoff: int, now: int)
    ensures RecoveredTask(t, cutoff, now) ==
            if (t.status == Selected || t.status == InProgress) && t.updatedAt <= cutoff
            then t.(status := Queued, lastError := Some(RECOVERED), blockedReason := None, updatedAt := now)
            else t
    ensures RecoveredRun(run, cutoff, now) ==
            if run.status in {RunSelected, Analyzing, Executing, Verifying} && run.updatedAt <= cutoff
            then run.(status := RunFailed, failureReason := Some(RECOVERED), completedAt := Some(now), updatedAt := now)
            else run
  {
  }

  lemma RecoverEffect(s: Store, cutoff: int, now: int)
    requires Wellformed(s)
    ensures var s' := Recover(s, cutoff, now);
            && Wellformed(s') && s'.order == s.order && s'.tasks.Keys == s.tasks.Keys
            && (forall id | id in s.tasks :: s'.tasks[id] == RecoveredTask(s.tasks[id], cutoff, now))
            && |s'.runs| == |s.runs|
            && (forall i | 0 <= i < |s.runs| :: s'.runs[i] == RecoveredRun(s.runs[i], cutoff, now))
  {
  }

  // A named field takes the value given, another keeps its own.
  ghost predicate Sets<T>(given: Option<T>, was: T, becomes: T) {
    match given
    case None => becomes == was
    case Some(value) => becomes == value
  }

  /** An update touches the run with that id, in the fields it names, and no task. */
  lemma PatchRunEffect(s: Store, runId: Id, u: RunUpdate, now: int)
    requires Wellformed(s)
    ensures var s', i := PatchRun(s, runId, u, now), RunIndex(s.runs, runId);
            && Wellformed(s') && s'.order == s.order && s'.tasks == s.tasks && |s'.runs| == |s.runs|
            && (i == |s.runs| <==> forall k | 0 <= k < |s.runs| :: s.runs[k].id != runId)
            && (i < |s.runs| ==>
                  var run, run' := s.runs[i], s'.runs[i];
                  && run.id == run'.id == runId && run'.sourceTaskId == run.sourceTaskId
                  && run'.startedAt == run.startedAt && run'.updatedAt == now
                  && Sets(u.status, run.status, run'.status)
                  && Sets(u.failureReason, run.failureReason, run'.failureReason)
                  && Sets(u.blockedReason, run.blockedReason, run'.blockedReason)
                  && Sets(u.completedAt, run.completedAt, run'.completedAt))
            && (forall k | 0 <= k < |s.runs| && k != i :: s'.runs[k] == s.runs[k])
  {
  }

  lemma SetRunStatusEffect(s: Store, runId: Id, status: RunStatus, now: int)
    requires Wellformed(s)
    ensures var s', i := SetRunStatus(s, runId, status, now), RunIndex(s.runs, runId);
            && Wellformed(s') && s'.order == s.order && s'.tasks == s.tasks && |s'.runs| == |s.runs|
            && (i < |s.runs| ==> s'.runs[i] == s.runs[i].(status := status, updatedAt := now))
            && (forall k | 0 <= k < |s.runs| && k != i :: s'.runs[k] == s.runs[k])
  {
    PatchRunEffect(s, runId, RunUpdate(Some(status), None, None, None), now);
  }

  /** The current run is the newest active one. */
  lemma {:induction false} CurrentRunIsNewest(runs: seq<Run>) returns (i: nat)
    ensures i <= |runs| && (forall k | 0 <= k < i :: !IsActive(runs[k].status))
    ensures CurrentRun(runs) == if i < |runs| then Some(runs[i]) else None
    ensures i < |runs| ==> IsActive(runs[i].status)
  {
    if runs == [] || IsActive(runs[0].status) {
      i := 0;
    } else {
      var j := CurrentRunIsNewest(runs[1..]);
      i := j + 1;
      assert forall k | 0 < k < i :: runs[k] == runs[1..][k - 1];
    }
  }

  class AgentTaskStore {
    var order: seq<Id>
    var sourceTasks: map<Id, Task>
    var taskRuns: seq<Run>

    constructor ()
      ensures Value() == Store([], map[], []) && Wellformed(Value())
    {
      order, sourceTasks, taskRuns := [], map[], [];
    }

    function Value(): Store
      reads this
    {
      Store(order, sourceTasks, taskRuns)
    }

    method UpsertSourceTask(input: TaskInput, now: int)
      requires Wellformed(Value())
      modifies this
      ensures Value() == Upsert(old(Value()), input, now) && Wellformed(Value())
      ensures taskRuns == old(taskRuns) && sourceTasks.Keys == old(sourceTasks).Keys + {input.id}
      ensures forall id | id in old(sourceTasks) && id != input.id :: sourceTasks[id] == old(sourceTasks)[id]
      ensures order == old(order) + if input.id in old(sourceTasks) then [] else [input.id]
      ensures var t := sourceTasks[input.id];
              && t.id == input.id && t.title == input.title && t.priority == input.priority
              && t.editScopes == input.editScopes && t.backlogSequence == input.backlogSequence
              && t.status == input.status && t.lastError == input.lastError && t.blockedReason == input.blockedReason
              && t.updatedAt == (if input.updatedAt.Some? then input.updatedAt.value else now)
              && (input.id in old(sourceTasks) ==>
                    var was := old(sourceTasks)[input.id];
                    t.runCount == was.runCount && t.recoveryCount == was.recoveryCount && t.createdAt == was.createdAt)
              && (input.id !in old(sourceTasks) ==>
                    && t.runCount == (if input.runCount.Some? then input.runCount.value else 0)
                    && t.recoveryCount == (if input.recoveryCount.Some? then input.recoveryCount.value else 0)
                    && t.createdAt == if input.createdAt.Some? then input.createdAt.value else now)
    {
      var existing := if input.id in sourceTasks then Some(sourceTasks[input.id]) else None;
      if existing.None? {
        order := order + [input.id];
      }
      sourceTasks := sourceTasks[input.id := Merged(existing, input, now)];
    }

    method UpdateSourceTaskStatus(
        id: Id, status: TaskStatus, error: Option<string>, reason: Option<string>, now: int)
      requires Wellformed(Value())
      modifies this
      ensures Value() == UpdateStatus(old(Value()), id, status, error, reason, now) && Wellformed(Value())
    {
      if id in sourceTasks {
        var t := sourceTasks[id];
        UpsertSourceTask(AsInput(t.(status := status, lastError := OrElse(error, t.lastError),
                                    blockedReason := OrElse(reason, t.blockedReason), updatedAt := now)), now);
      }
    }

    method BeginRun(id: Id, runId: Id, now: int)
      requires Wellformed(Value())
      requires forall i | 0 <= i < |taskRuns| :: taskRuns[i].id != runId
      modifies this
      ensures Value() == StartRun(old(Value()), id, runId, now) && Wellformed(Value())
    {
      InsertRun(Run(runId, id, RunSelected, None, None, now, now, None));
      UpdateSourceTaskStatus(id, Selected, None, None, now);
      if id in sourceTasks {
        CountRun(id, now);
      }
    }

    method InsertRun(run: Run)
      requires Wellformed(Value())
      requires forall i | 0 <= i < |taskRuns| :: taskRuns[i].id != run.id
      modifies this`taskRuns
      ensures taskRuns == WithRun(old(taskRuns), run)
      ensures Wellformed(Value())
    {
      taskRuns := [run] + taskRuns;
      if |taskRuns| > RUN_CAP {
        taskRuns := taskRuns[..RUN_CAP];
      }
    }

    // The stored record itself is changed before it is upserted, so the existing count the upsert
    // keeps is already the new one.
    method CountRun(id: Id, now: int)
      requires Wellformed(Value()) && id in sourceTasks
      modifies this
      ensures var t := old(sourceTasks[id]);
              Value() == old(Value()).(
                tasks := old(sourceTasks)[id := t.(runCount := t.runCount + 1, updatedAt := now)])
      ensures Wellformed(Value())
    {
      var current := sourceTasks[id].(runCount := sourceTasks[id].runCount + 1, updatedAt := now);
      sourceTasks := sourceTasks[id := current];
      UpsertSourceTask(AsInput(current), now);
    }

    method FindRun(runId: Id) returns (i: nat)
      ensures i == RunIndex(taskRuns, runId)
    {
      i := 0;
      while i < |taskRuns| && taskRuns[i].id != runId
        invariant i <= |taskRuns|
        invariant RunIndex(taskRuns, runId) == i + RunIndex(taskRuns[i..], runId)
      {
        i := i + 1;
      }
    }

    method UpdateRun(runId: Id, u: RunUpdate, now: int) returns (i: nat)
      requires Wellformed(Value())
      modifies this`taskRuns
      ensures Value() == PatchRun(old(Value()), runId, u, now) && Wellformed(Value())
      ensures i == RunIndex(old(taskRuns), runId)
    {
      i := FindRun(runId);
      if i < |taskRuns| {
        taskRuns := taskRuns[i := Patched(taskRuns[i], u, now)];
      }
    }

    method EndRun(runId: Id, o: Outcome, maxFailures: nat, now: int)
      requires Wellformed(Value())
      modifies this
      ensures Value() == FinishRun(old(Value()), runId, o, maxFailures, now) && Wellformed(Value())
    {
      var i := UpdateRun(runId, EndOf(o, now), now);
      if i == |taskRuns| {
        return;
      }
      var run := taskRuns[i];
      UpdateSourceTaskStatus(run.sourceTaskId, TaskEnd(o), run.failureReason, run.blockedReason, now);
      if o.Failure? && run.sourceTaskId in sourceTasks && sourceTasks[run.sourceTaskId].runCount >= maxFailures {
        UpsertSourceTask(AsInput(sourceTasks[run.sourceTaskId].(
          status := Discarded, blockedReason := Some(EXHAUSTED), updatedAt := now)), now);
      }
    }

    method GetCurrentRun() returns (r: Option<Run>)
      ensures r == CurrentRun(taskRuns)
    {
      var i := 0;
      while i < |taskRuns| && !IsActive(taskRuns[i].status)
        invariant i <= |taskRuns|
        invariant CurrentRun(taskRuns) == CurrentRun(taskRuns[i..])
      {
        i := i + 1;
      }
      r := if i < |taskRuns| then Some(taskRuns[i]) else None;
    }

    method RecoverStuckTasks(maxAge: int, now: int) returns (recovered: seq<Id>)
      requires Wellformed(Value())
      modifies this
      ensures Value() == Recover(old(Value()), now - maxAge, now) && Wellformed(Value())
      ensures forall id :: id in recovered <==>
                id in old(sourceTasks) && StaleTask(old(sourceTasks)[id], now - maxAge)
    {
      recovered := RecoverTasks(now - maxAge, now);
      RecoverRuns(now - maxAge, now);
      assert taskRuns == Recover(old(Value()), now - maxAge, now).runs;
    }

    method RecoverTasks(cutoff: int, now: int) returns (recovered: seq<Id>)
      requires Wellformed(Value())
      modifies this
      ensures order == old(order) && taskRuns == old(taskRuns) && Wellformed(Value())
      ensures sourceTasks == map id | id in old(sourceTasks) :: RecoveredTask(old(sourceTasks)[id], cutoff, now)
      ensures forall id :: id in recovered <==> id in old(sourceTasks) && StaleTask(old(sourceTasks)[id], cutoff)
    {
      recovered := [];
      ghost var was := sourceTasks;
      AllRecovered(was, order, cutoff, now);
      hide PartlyRecovered, RecoveredTask, StaleTask;
      var i := 0;
      while i < |order|
        invariant 0 <= i <= |order| && order == old(order) && taskRuns == old(taskRuns)
        invariant Wellformed(Value())
        invariant sourceTasks == PartlyRecovered(was, order[..i], cutoff, now)
        invariant forall id :: id in recovered <==> id in order[..i] && id in was && StaleTask(was[id], cutoff)
      {
        var id := order[i];
        assert order[..i + 1] == order[..i] + [id];
        RecoverOneMore(was, order[..i], id, cutoff, now);
        var stale := RecoverTask(id, cutoff, now);
        if stale {
          recovered := recovered + [id];
        }
        i := i + 1;
      }
      assert order[..i] == order;
    }

    // The raised count is lost: the upsert keeps the stored one.
    method RecoverTask(id: Id, cutoff: int, now: int) returns (stale: bool)
      requires Wellformed(Value()) && id in sourceTasks
      modifies this
      ensures Value() == old(Value()).(
                tasks := old(sourceTasks)[id := RecoveredTask(old(sourceTasks)[id], cutoff, now)])
      ensures stale <==> StaleTask(old(sourceTasks)[id], cutoff)
      ensures Wellformed(Value())
    {
      var task := sourceTasks[id];
      stale := (task.status.Selected? || task.status.InProgress?) && task.updatedAt <= cutoff;
      if stale {
        UpsertSourceTask(AsInput(task.(
          status := Queued, recoveryCount := task.recoveryCount + 1, blockedReason := None,
          lastError := Some(RECOVERED), updatedAt := now)), now);
      } else {
        assert sourceTasks == sourceTasks[id := task];
      }
    }

    method RecoverRuns(cutoff: int, now: int)
      requires Wellformed(Value())
      modifies this`taskRuns
      ensures |taskRuns| == |old(taskRuns)| && Wellformed(Value())
      ensures forall k | 0 <= k < |taskRuns| :: taskRuns[k] == RecoveredRun(old(taskRuns)[k], cutoff, now)
    {
      var i := 0;
      while i < |taskRuns|
        invariant 0 <= i <= |taskRuns| == |old(taskRuns)| && RunIdsDistinct(taskRuns)
        invariant forall k | 0 <= k < i :: taskRuns[k] == RecoveredRun(old(taskRuns)[k], cutoff, now)
        invariant forall k | i <= k < |taskRuns| :: taskRuns[k] == old(taskRuns)[k]
      {
        var run := taskRuns[i];
        if IsActive(run.status) && run.updatedAt <= cutoff {
          taskRuns := taskRuns[i := run.(status := RunFailed, failureReason := Some(RECOVERED),
                                         updatedAt := now, completedAt := Some(now))];
        }
        i := i + 1;
      }
    }
  }
}
