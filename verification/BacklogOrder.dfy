/** Working the backlog off through the task store: each round chooses, runs and finishes one task. */
module BacklogOrder {
  import opened Options
  import opened Sequences
  import opened TaskStore
  import opened TaskSelection
  import TaskLifecycle

  // One round of the worker in which the run succeeds.
  function Round(s: Store, runId: Id, now: int, maxFailures: nat): (Store, Option<Task>) {
    var (s1, chosen) := NextTask(s, now);
    if chosen.None? then (s1, None)
    else
      var s2 := StartRun(s1, chosen.value.id, runId, now);
      var s3 := UpdateStatus(s2, chosen.value.id, InProgress, None, None, now);
      (FinishRun(s3, runId, Success, maxFailures, now), chosen)
  }

  function WorkedOff(s: Store, runIds: seq<Id>, now: int, maxFailures: nat): seq<Task>
    decreases |runIds|
  {
    if runIds == [] then []
    else
      var (s', chosen) := Round(s, runIds[0], now, maxFailures);
      if chosen.None? then [] else [chosen.value] + WorkedOff(s', runIds[1..], now, maxFailures)
  }

  function Waiting(s: Store): set<Id> {
    set id | id in s.tasks && s.tasks[id].status == Queued
  }

  // A store of at most 300 tasks, none failed, whose queued ones are backlog tasks of one priority.
  ghost predicate BacklogStore(s: Store, priority: real) {
    && Wellformed(s) && |s.order| <= 300
    && (forall id | id in s.tasks :: s.tasks[id].status != Failed)
    && (forall id | id in Waiting(s) ::
          s.tasks[id].priority == priority && s.tasks[id].editScopes != [] && s.tasks[id].backlogSequence.Some?)
    && (forall a, b | a in Waiting(s) && b in Waiting(s) && a != b ::
          s.tasks[a].backlogSequence != s.tasks[b].backlogSequence)
  }

  ghost predicate NewRuns(s: Store, runIds: seq<Id>) {
    Distinct(runIds) && forall i, k | 0 <= i < |s.runs| && 0 <= k < |runIds| :: s.runs[i].id != runIds[k]
  }

  lemma WaitingIsReady(s: Store, now: int, priority: real, t: Task)
    requires BacklogStore(s, priority)
    ensures Ready(s, t, now) <==> t.id in Waiting(s) && s.tasks[t.id] == t
  {
    TaskLifecycle.EligibleExactly(t, now);
  }

  // The choice from a backlog: the first in sequence, nothing blocked.
  lemma FirstIsChosen(s: Store, now: int, priority: real)
    requires BacklogStore(s, priority)
    ensures NextTask(s, now).0 == s
    ensures NextTask(s, now).1.None? <==> Waiting(s) == {}
    ensures NextTask(s, now).1.Some? ==>
              var t := NextTask(s, now).1.value;
              && t.id in Waiting(s) && s.tasks[t.id] == t
              && forall id | id in Waiting(s) :: t.backlogSequence.value <= s.tasks[id].backlogSequence.value
  {
    hide NextTask, Wellformed, Ready;
    var blocked := ChosenIsBest(s, now);
    forall t ensures Ready(s, t, now) <==> t.id in Waiting(s) && s.tasks[t.id] == t {
      WaitingIsReady(s, now, priority, t);
    }
    forall t ensures t !in blocked {
      if Ready(s, t, now) { assert s.tasks[t.id].editScopes != []; }
    }
    NobodyIn(blocked);
    forall id | id in Waiting(s) ensures Ready(s, s.tasks[id], now) {
      IdIsKey(s, id);
    }
  }

  lemma NobodyIn(ts: seq<Task>)
    requires forall t :: t !in ts
    ensures ts == []
  {
    if ts != [] { FirstIsIn(ts); }
  }

  lemma FirstIsIn(ts: seq<Task>)
    requires ts != []
    ensures exists t :: t in ts
  {
    assert ts[0] in ts;
  }

  lemma IdIsKey(s: Store, id: Id)
    requires Wellformed(s) && id in s.tasks
    ensures s.tasks[id].id == id
  {
  }

  lemma RoundEffect(s: Store, runId: Id, now: int, maxFailures: nat, priority: real)
    requires BacklogStore(s, priority) && Waiting(s) != {} && forall i | 0 <= i < |s.runs| :: s.runs[i].id != runId
    ensures var (s', chosen) := Round(s, runId, now, maxFailures);
            && chosen == NextTask(s, now).1 && chosen.Some? && chosen.value.id in s.tasks
            && Wellformed(s') && s'.order == s.order && s'.tasks.Keys == s.tasks.Keys
            && s'.tasks[chosen.value.id].status == Succeeded
            && (forall id | id in s.tasks && id != chosen.value.id :: s'.tasks[id] == s.tasks[id])
            && (forall i | 0 <= i < |s'.runs| ::
                  s'.runs[i].id == runId || exists k | 0 <= k < |s.runs| :: s'.runs[i].id == s.runs[k].id)
  {
    hide StartRun, UpdateStatus, FinishRun, Wellformed, NextTask;
    FirstIsChosen(s, now, priority);
    var id := NextTask(s, now).1.value.id;
    StartRunEffect(s, id, runId, now);
    var s2 := StartRun(s, id, runId, now);
    assert forall i | 1 <= i < |s2.runs| :: s2.runs[i] == s2.runs[1..][i - 1] == s.runs[i - 1];
    UpdateStatusEffect(s2, id, InProgress, None, None, now);
    var s3 := UpdateStatus(s2, id, InProgress, None, None, now);
    assert s3.runs == s2.runs && RunIndex(s3.runs, runId) == 0;
    FinishRunEffect(s3, runId, Success, maxFailures, now);
  }

  lemma RoundKeepsBacklog(s: Store, runId: Id, now: int, maxFailures: nat, priority: real)
    requires BacklogStore(s, priority) && Waiting(s) != {} && forall i | 0 <= i < |s.runs| :: s.runs[i].id != runId
    ensures var (s', chosen) := Round(s, runId, now, maxFailures);
            && chosen.Some? && BacklogStore(s', priority) && Waiting(s') == Waiting(s) - {chosen.value.id}
            && forall id | id in Waiting(s') :: s'.tasks[id] == s.tasks[id]
  {
    hide Round, Wellformed;
    RoundEffect(s, runId, now, maxFailures, priority);
  }

  // `out` are the first tasks waiting, in sequence order, each once: as many as there are rounds.
  ghost predicate FirstInOrder(s: Store, out: seq<Task>, rounds: nat) {
    && (forall id | id in Waiting(s) :: s.tasks[id].backlogSequence.Some?)
    && |out| == (if rounds < |Waiting(s)| then rounds else |Waiting(s)|)
    && (forall i | 0 <= i < |out| :: out[i].id in Waiting(s) && s.tasks[out[i].id] == out[i])
    && (forall i, j | 0 <= i < j < |out| :: out[i].backlogSequence.value < out[j].backlogSequence.value)
    && (forall id, i | id in Waiting(s) && 0 <= i < |out| && s.tasks[id] !in out ::
          out[i].backlogSequence.value < s.tasks[id].backlogSequence.value)
  }

  // The store after the front task of those waiting is done.
  ghost predicate FrontIsDone(s: Store, s': Store, t: Task) {
    && t.id in Waiting(s) && s.tasks[t.id] == t
    && Waiting(s') == Waiting(s) - {t.id} && (forall id | id in Waiting(s') :: s'.tasks[id] == s.tasks[id])
    && (forall id | id in Waiting(s) :: s.tasks[id].backlogSequence.Some?)
    && forall id | id in Waiting(s') :: t.backlogSequence.value < s.tasks[id].backlogSequence.value
  }

  lemma OthersComeLater(s: Store, s': Store, t: Task, out: seq<Task>, rounds: nat, id: Id, i: nat)
    requires FirstInOrder(s', out, rounds) && FrontIsDone(s, s', t)
    requires id in Waiting(s) && i < |out| + 1 && s.tasks[id] !in [t] + out
    ensures ([t] + out)[i].backlogSequence.Some?
    ensures ([t] + out)[i].backlogSequence.value < s.tasks[id].backlogSequence.value
  {
    assert t in [t] + out;
    assert id in Waiting(s') && s'.tasks[id] == s.tasks[id];
    assert s'.tasks[id] !in out;
    if i > 0 { assert ([t] + out)[i] == out[i - 1]; }
  }

  lemma OneMoreIsWaiting(s: Store, s': Store, t: Task)
    requires FrontIsDone(s, s', t)
    ensures |Waiting(s)| == |Waiting(s')| + 1
  {
    assert Waiting(s) == Waiting(s') + {t.id} && t.id !in Waiting(s');
    hide Waiting;
  }

  lemma OutIsWaiting(s: Store, s': Store, t: Task, out: seq<Task>, rounds: nat, i: nat)
    requires FirstInOrder(s', out, rounds) && FrontIsDone(s, s', t) && i < |out| + 1
    ensures var x := ([t] + out)[i];
            && x.id in Waiting(s) && s.tasks[x.id] == x && x.backlogSequence.Some?
            && (i > 0 ==> t.backlogSequence.value < x.backlogSequence.value)
  {
    if i > 0 { assert ([t] + out)[i] == out[i - 1] && out[i - 1].id in Waiting(s'); }
  }

  lemma StillIncreasing(s: Store, s': Store, t: Task, out: seq<Task>, rounds: nat, i: nat, j: nat)
    requires FirstInOrder(s', out, rounds) && FrontIsDone(s, s', t) && i < j < |out| + 1
    ensures var longer := [t] + out;
            && longer[i].backlogSequence.Some? && longer[j].backlogSequence.Some?
            && longer[i].backlogSequence.value < longer[j].backlogSequence.value
  {
    var longer := [t] + out;
    OutIsWaiting(s, s', t, out, rounds, i);
    OutIsWaiting(s, s', t, out, rounds, j);
    if i > 0 { assert longer[i] == out[i - 1] && longer[j] == out[j - 1]; }
  }

  lemma OneMoreInOrder(s: Store, s': Store, t: Task, out: seq<Task>, rounds: nat)
    requires FirstInOrder(s', out, rounds) && FrontIsDone(s, s', t)
    ensures FirstInOrder(s, [t] + out, rounds + 1)
  {
    var longer := [t] + out;
    OneMoreIsWaiting(s, s', t);
    forall i | 0 <= i < |longer|
      ensures longer[i].id in Waiting(s) && s.tasks[longer[i].id] == longer[i] && longer[i].backlogSequence.Some?
    {
      OutIsWaiting(s, s', t, out, rounds, i);
    }
    forall i, j | 0 <= i < j < |longer|
      ensures longer[i].backlogSequence.value < longer[j].backlogSequence.value
    {
      StillIncreasing(s, s', t, out, rounds, i, j);
    }
    forall id, i | id in Waiting(s) && 0 <= i < |longer| && s.tasks[id] !in longer
      ensures longer[i].backlogSequence.value < s.tasks[id].backlogSequence.value
    {
      OthersComeLater(s, s', t, out, rounds, id, i);
    }
    hide Waiting;
  }

  lemma NothingIsFirst(s: Store, priority: real)
    requires BacklogStore(s, priority)
    ensures FirstInOrder(s, [], 0) && (Waiting(s) == {} ==> forall n: nat :: FirstInOrder(s, [], n))
  {
  }

  lemma ChosenIsStrictlyFirst(s: Store, t: Task, priority: real)
    requires BacklogStore(s, priority) && t.id in Waiting(s) && s.tasks[t.id] == t
    requires forall id | id in Waiting(s) :: t.backlogSequence.value <= s.tasks[id].backlogSequence.value
    ensures forall id | id in Waiting(s) - {t.id} :: t.backlogSequence.value < s.tasks[id].backlogSequence.value
  {
  }

  lemma RoundKeepsNew(s: Store, runIds: seq<Id>, now: int, maxFailures: nat, priority: real)
    requires BacklogStore(s, priority) && Waiting(s) != {} && runIds != [] && NewRuns(s, runIds)
    ensures NewRuns(Round(s, runIds[0], now, maxFailures).0, runIds[1..])
  {
    hide Round;
    RoundEffect(s, runIds[0], now, maxFailures, priority);
    assert forall k | 0 <= k < |runIds| - 1 :: runIds[1..][k] == runIds[k + 1];
  }

  /**
   * Rounds without failures start the tasks of a backlog of one priority in sequence order, each
   * once: the first k of them after k rounds, all of them after enough.
   */
  lemma {:induction false} BacklogIsWorkedInOrder(
      s: Store, runIds: seq<Id>, now: int, maxFailures: nat, priority: real)
    requires BacklogStore(s, priority) && NewRuns(s, runIds)
    ensures FirstInOrder(s, WorkedOff(s, runIds, now, maxFailures), |runIds|)
    decreases |runIds|
  {
    hide FirstInOrder, Round, NewRuns, BacklogStore, FrontIsDone;
    NothingIsFirst(s, priority);
    if runIds != [] {
      FirstIsNew(s, runIds);
      if Waiting(s) == {} {
        NothingIsChosen(s, runIds[0], now, maxFailures, priority);
      } else {
        var (s', chosen) := Round(s, runIds[0], now, maxFailures);
        RoundKeepsBacklog(s, runIds[0], now, maxFailures, priority);
        RoundKeepsNew(s, runIds, now, maxFailures, priority);
        BacklogIsWorkedInOrder(s', runIds[1..], now, maxFailures, priority);
        FrontComesFirst(s, runIds[0], now, maxFailures, priority);
        hide Waiting;
        OneMoreInOrder(s, s', chosen.value, WorkedOff(s', runIds[1..], now, maxFailures), |runIds| - 1);
      }
    }
  }

  lemma FirstIsNew(s: Store, runIds: seq<Id>)
    requires NewRuns(s, runIds) && runIds != []
    ensures forall i | 0 <= i < |s.runs| :: s.runs[i].id != runIds[0]
  {
  }

  lemma NothingIsChosen(s: Store, runId: Id, now: int, maxFailures: nat, priority: real)
    requires BacklogStore(s, priority) && Waiting(s) == {}
    ensures Round(s, runId, now, maxFailures).1 == None
  {
    hide NextTask;
    FirstIsChosen(s, now, priority);
  }

  lemma FrontComesFirst(s: Store, runId: Id, now: int, maxFailures: nat, priority: real)
    requires BacklogStore(s, priority) && Waiting(s) != {} && forall i | 0 <= i < |s.runs| :: s.runs[i].id != runId
    ensures var (s', chosen) := Round(s, runId, now, maxFailures); chosen.Some? && FrontIsDone(s, s', chosen.value)
  {
    var (s', chosen) := Round(s, runId, now, maxFailures);
    hide Round, NextTask, Wellformed;
    FirstIsChosen(s, now, priority);
    RoundKeepsBacklog(s, runId, now, maxFailures, priority);
    RoundEffect(s, runId, now, maxFailures, priority);
    ChosenIsStrictlyFirst(s, chosen.value, priority);
  }
}
