/** Which task runs next: a window of 300 tasks, sorted twice, scope-less candidates blocked on the way. */
module TaskSelection {
  import opened Options
  import opened Sequences
  import opened Sorting
  import opened TaskStore
  import TaskLifecycle

  const WINDOW := 300
  const MAX_SAFE_INTEGER := 9007199254740991

  function Weight(status: TaskStatus): nat {
    match status
    case Queued => 0
    case Selected => 1
    case InProgress => 2
    case Failed => 3
    case Blocked => 4
    case Succeeded => 5
    case Discarded => 6
  }

  predicate ListedBefore(a: Task, b: Task) {
    if a.status != b.status then Weight(a.status) < Weight(b.status)
    else if a.priority != b.priority then a.priority > b.priority
    else a.updatedAt > b.updatedAt
  }

  function Sequence(t: Task): int {
    Else(t.backlogSequence, MAX_SAFE_INTEGER)
  }

  predicate ChosenBefore(a: Task, b: Task) {
    if a.priority != b.priority then a.priority > b.priority
    else if Sequence(a) != Sequence(b) then Sequence(a) < Sequence(b)
    else a.createdAt < b.createdAt
  }

  // The task records in insertion order.
  function Values(order: seq<Id>, tasks: map<Id, Task>): seq<Task> {
    if order == [] then []
    else (if order[0] in tasks then [tasks[order[0]]] else []) + Values(order[1..], tasks)
  }

  function Take<T>(s: seq<T>, limit: nat): seq<T> {
    if |s| > limit then s[..limit] else s
  }

  function ListSourceTasks(s: Store, limit: nat): seq<Task> {
    Take(Sort(Values(s.order, s.tasks), ListedBefore), limit)
  }

  function EligibleOf(ts: seq<Task>, now: int): seq<Task> {
    if ts == [] then []
    else (if !IsTerminal(ts[0].status) && TaskLifecycle.Eligible(ts[0], now) then [ts[0]] else [])
         + EligibleOf(ts[1..], now)
  }

  function Candidates(s: Store, now: int): seq<Task> {
    Sort(EligibleOf(ListSourceTasks(s, WINDOW), now), ChosenBefore)
  }

  function PickScoped(s: Store, candidates: seq<Task>, now: int): (Store, Option<Task>)
    decreases |candidates|
  {
    if candidates == [] then (s, None)
    else if candidates[0].editScopes != [] then (s, Some(candidates[0]))
    else PickScoped(UpdateStatus(s, candidates[0].id, Blocked, None, Some(NO_SCOPES), now), candidates[1..], now)
  }

  function NextTask(s: Store, now: int): (Store, Option<Task>) {
    PickScoped(s, Candidates(s, now), now)
  }

  lemma ListedBeforeIsOrder()
    ensures IsOrder(ListedBefore)
  {
  }

  lemma ChosenBeforeIsOrder()
    ensures IsOrder(ChosenBefore)
  {
  }

  lemma {:induction false} ValuesAreTheTasks(order: seq<Id>, tasks: map<Id, Task>, t: Task)
    requires Distinct(order) && forall id | id in tasks :: tasks[id].id == id
    ensures t in Values(order, tasks) <==> t.id in order && t.id in tasks && tasks[t.id] == t
    ensures multiset(Values(order, tasks))[t] <= 1
    ensures |Values(order, tasks)| <= |order|
  {
    if order != [] {
      var rest := order[1..];
      ValuesAreTheTasks(rest, tasks, t);
      assert forall i | 0 <= i < |rest| :: rest[i] == order[i + 1];
      var head := if order[0] in tasks then [tasks[order[0]]] else [];
      assert multiset(Values(order, tasks)) == multiset(head) + multiset(Values(rest, tasks));
      assert t.id in rest ==> order[0] != t.id;
    }
  }

  lemma {:induction false} EligibleOfFilters(ts: seq<Task>, now: int, t: Task)
    ensures t in EligibleOf(ts, now) <==> t in ts && !IsTerminal(t.status) && TaskLifecycle.Eligible(t, now)
  {
    if ts != [] {
      EligibleOfFilters(ts[1..], now, t);
    }
  }

  lemma SortKeepsMembers(ts: seq<Task>, before: (Task, Task) -> bool, t: Task)
    requires IsOrder(before)
    ensures t in Sort(ts, before) <==> t in ts
  {
    SortIsSortedPermutation(ts, before);
    assert t in multiset(Sort(ts, before)) <==> t in multiset(ts);
  }

  /**
   * The listing is a part of the stored tasks by status, in this order, then by priority, the
   * highest first, then by last update, the newest first.
   */
  lemma ListIsOrdered(s: Store, limit: nat, i: nat, j: nat)
    requires i < j < |ListSourceTasks(s, limit)|
    ensures var list, statuses := ListSourceTasks(s, limit),
                                  [Queued, Selected, InProgress, Failed, Blocked, Succeeded, Discarded];
            exists x, y | 0 <= x < 7 && 0 <= y < 7 ::
              && list[i].status == statuses[x] && list[j].status == statuses[y] && x <= y
              && (x == y ==>
                    && list[i].priority >= list[j].priority
                    && (list[i].priority == list[j].priority ==> list[i].updatedAt >= list[j].updatedAt))
    ensures |ListSourceTasks(s, limit)| <= limit
  {
    ListedBeforeIsOrder();
    var list := ListSourceTasks(s, limit);
    SortIsSortedPermutation(Values(s.order, s.tasks), ListedBefore);
    assert !ListedBefore(list[j], list[i]);
    StatusHasPlace(list[i].status);
    StatusHasPlace(list[j].status);
  }

  lemma StatusHasPlace(status: TaskStatus)
    ensures [Queued, Selected, InProgress, Failed, Blocked, Succeeded, Discarded][Weight(status)] == status
    ensures Weight(status) < 7
  {
  }

  // A stored record that may run now.
  ghost predicate Ready(s: Store, t: Task, now: int) {
    t.id in s.tasks && s.tasks[t.id] == t && TaskLifecycle.Eligible(t, now)
  }

  ghost predicate InWindow(s: Store, t: Task) {
    t in ListSourceTasks(s, WINDOW)
  }

  lemma CandidatesAreReady(s: Store, now: int, t: Task)
    requires Wellformed(s)
    ensures t in Candidates(s, now) <==> Ready(s, t, now) && InWindow(s, t)
  {
    ListedBeforeIsOrder();
    ChosenBeforeIsOrder();
    ValuesAreTheTasks(s.order, s.tasks, t);
    SortKeepsMembers(Values(s.order, s.tasks), ListedBefore, t);
    EligibleOfFilters(ListSourceTasks(s, WINDOW), now, t);
    SortKeepsMembers(EligibleOf(ListSourceTasks(s, WINDOW), now), ChosenBefore, t);
  }

  lemma CandidatesAreSorted(s: Store, now: int)
    ensures Sorted(Candidates(s, now), ChosenBefore)
  {
    ChosenBeforeIsOrder();
    SortIsSortedPermutation(EligibleOf(ListSourceTasks(s, WINDOW), now), ChosenBefore);
  }

  lemma TakenComeFirst(all: seq<Task>, limit: nat, inside: Task, outside: Task)
    requires Sorted(all, ListedBefore) && inside in Take(all, limit) && outside in all && outside !in Take(all, limit)
    ensures !ListedBefore(outside, inside) && |Take(all, limit)| == limit
  {
    var taken := Take(all, limit);
    var i :| 0 <= i < |taken| && taken[i] == inside;
    var j :| 0 <= j < |all| && all[j] == outside;
    assert forall k | 0 <= k < |taken| :: taken[k] == all[k] && taken[k] in taken;
    assert all[i] == inside;
    hide ListedBefore;
  }

  /** Everything outside the window is listed no earlier than everything in it. */
  lemma WindowIsFirst(s: Store, inside: Task, outside: Task)
    requires Wellformed(s) && InWindow(s, inside) && !InWindow(s, outside)
    requires outside.id in s.tasks && s.tasks[outside.id] == outside
    ensures !ListedBefore(outside, inside) && |ListSourceTasks(s, WINDOW)| == 300
  {
    ListedBeforeIsOrder();
    ValuesAreTheTasks(s.order, s.tasks, outside);
    hide Values, Sort, Sorted, ListedBefore, Take;
    SortIsSortedPermutation(Values(s.order, s.tasks), ListedBefore);
    SortKeepsMembers(Values(s.order, s.tasks), ListedBefore, outside);
    TakenComeFirst(Sort(Values(s.order, s.tasks), ListedBefore), WINDOW, inside, outside);
  }

  /** A store of at most 300 tasks is all window. */
  lemma SmallStoreIsAllWindow(s: Store, t: Task)
    requires Wellformed(s) && |s.order| <= 300 && t.id in s.tasks && s.tasks[t.id] == t
    ensures InWindow(s, t)
  {
    ListedBeforeIsOrder();
    ValuesAreTheTasks(s.order, s.tasks, t);
    SortIsSortedPermutation(Values(s.order, s.tasks), ListedBefore);
    SortKeepsMembers(Values(s.order, s.tasks), ListedBefore, t);
  }

  // The store after the tasks of `ts` turned blocked.
  function BlockAll(s: Store, ts: seq<Task>, now: int): Store
    decreases |ts|
  {
    if ts == [] then s
    else BlockAll(UpdateStatus(s, ts[0].id, Blocked, None, Some(NO_SCOPES), now), ts[1..], now)
  }

  /** The pick is the first scoped candidate; exactly those before it are blocked. */
  lemma {:induction false} PickIsFirstScoped(s: Store, candidates: seq<Task>, now: int) returns (k: nat)
    ensures k <= |candidates| && forall i | 0 <= i < k :: candidates[i].editScopes == []
    ensures k < |candidates| ==> candidates[k].editScopes != []
    ensures PickScoped(s, candidates, now) ==
            (BlockAll(s, candidates[..k], now), if k < |candidates| then Some(candidates[k]) else None)
    decreases |candidates|
  {
    if candidates == [] || candidates[0].editScopes != [] {
      k := 0;
    } else {
      var s1 := UpdateStatus(s, candidates[0].id, Blocked, None, Some(NO_SCOPES), now);
      var j := PickIsFirstScoped(s1, candidates[1..], now);
      k := j + 1;
      assert candidates[..k][1..] == candidates[1..][..j];
      forall i | 0 <= i < k ensures candidates[i].editScopes == [] {
        if 0 < i { assert candidates[i] == candidates[1..][i - 1]; }
      }
    }
  }

  /** Blocking touches exactly the listed tasks. */
  lemma {:induction false} BlockAllEffect(s: Store, ts: seq<Task>, now: int, id: Id)
    requires Wellformed(s) && id in s.tasks
    ensures var s' := BlockAll(s, ts, now);
            && Wellformed(s') && s'.runs == s.runs && s'.tasks.Keys == s.tasks.Keys
            && ((exists t | t in ts :: t.id == id) ==>
                  s'.tasks[id] == s.tasks[id].(status := Blocked, blockedReason := Some(NO_SCOPES), updatedAt := now))
            && (!(exists t | t in ts :: t.id == id) ==> s'.tasks[id] == s.tasks[id])
    decreases |ts|
  {
    hide UpdateStatus, Wellformed;
    if ts != [] {
      var s1 := UpdateStatus(s, ts[0].id, Blocked, None, Some(NO_SCOPES), now);
      if ts[0].id in s.tasks {
        UpdateStatusEffect(s, ts[0].id, Blocked, None, Some(NO_SCOPES), now);
      } else {
        UpdateStatusUnknown(s, ts[0].id, Blocked, None, Some(NO_SCOPES), now);
      }
      BlockAllEffect(s1, ts[1..], now, id);
      assert forall t | t in ts :: t == ts[0] || t in ts[1..];
    }
  }

  lemma UpdateStatusUnknown(
      s: Store, id: Id, status: TaskStatus, error: Option<string>, reason: Option<string>, now: int)
    requires id !in s.tasks
    ensures UpdateStatus(s, id, status, error, reason, now) == s
  {
  }

  /**
   * Despite the window: the chosen task's priority is at least that of every queued task with edit
   * scopes anywhere in the store.
   */
  lemma ChosenHasTopPriority(s: Store, now: int, q: Task)
    requires Wellformed(s) && NextTask(s, now).1.Some?
    requires q.id in s.tasks && s.tasks[q.id] == q && q.status.Queued? && q.editScopes != []
    ensures NextTask(s, now).1.value.priority >= q.priority
  {
    hide Candidates, InWindow, Wellformed, PickScoped, BlockAll, Sequence;
    var candidates := Candidates(s, now);
    var k := PickIsFirstScoped(s, candidates, now);
    var chosen := candidates[k];
    CandidatesAreReady(s, now, chosen);
    CandidatesAreReady(s, now, q);
    if InWindow(s, q) {
      CandidatesAreSorted(s, now);
      var j :| 0 <= j < |candidates| && candidates[j] == q;
      assert !(j < k);
    } else {
      WindowIsFirst(s, chosen, q);
    }
  }

  // `t` is no better a choice than `chosen`: not of higher priority; at equal priority not earlier
  // in the backlog, a task without a place there counting as the last of 2^53 - 1; at equal place
  // not older.
  ghost predicate NoBetter(t: Task, chosen: Task) {
    && t.priority <= chosen.priority
    && (t.priority == chosen.priority ==>
          && (t.backlogSequence.Some? && chosen.backlogSequence.Some? ==>
                chosen.backlogSequence.value <= t.backlogSequence.value)
          && (t.backlogSequence.Some? && chosen.backlogSequence.None? ==>
                t.backlogSequence.value >= 9007199254740991)
          && (t.backlogSequence == chosen.backlogSequence ==> chosen.createdAt <= t.createdAt))
  }

  lemma NotBeforeIsNoBetter(t: Task, chosen: Task)
    requires !ChosenBefore(t, chosen)
    ensures NoBetter(t, chosen)
  {
  }

  /**
   * In a store of at most 300 tasks the choice is a best ready task with scopes by priority, then
   * backlog sequence, then age; every better ready task had no scopes and is now blocked, no other
   * task is touched, and nothing is chosen only when no ready task has scopes.
   */
  lemma ChosenIsBest(s: Store, now: int) returns (blocked: seq<Task>)
    requires Wellformed(s) && |s.order| <= 300
    ensures NextTask(s, now).0 == BlockAll(s, blocked, now)
    ensures forall t | t in blocked :: Ready(s, t, now) && t.editScopes == []
    ensures NextTask(s, now).1.Some? ==>
              var chosen := NextTask(s, now).1.value;
              && Ready(s, chosen, now) && chosen.editScopes != []
              && (forall t | Ready(s, t, now) && t.editScopes != [] :: NoBetter(t, chosen))
              && (forall t | Ready(s, t, now) && !NoBetter(t, chosen) :: t in blocked)
              && (forall t | t in blocked :: NoBetter(chosen, t))
    ensures NextTask(s, now).1.None? ==>
              forall t | Ready(s, t, now) :: t.editScopes == [] && t in blocked
  {
    var candidates := Candidates(s, now);
    var k := PickIsFirstScoped(s, candidates, now);
    blocked := candidates[..k];
    hide Wellformed, PickScoped, BlockAll, Candidates, NoBetter, ChosenBefore;
    CandidatesAreSorted(s, now);
    forall t ensures Ready(s, t, now) <==> t in candidates {
      CandidatesAreReady(s, now, t);
      if Ready(s, t, now) { SmallStoreIsAllWindow(s, t); }
    }
    forall t | Ready(s, t, now)
      ensures exists j :: 0 <= j < |candidates| && candidates[j] == t && (j < k ==> t in blocked)
    {
      var j :| 0 <= j < |candidates| && candidates[j] == t;
      if j < k { assert blocked[j] == t; }
    }
    if k < |candidates| {
      ChoiceIsSorted(candidates, k);
    }
  }

  // Where the choice stands among the candidates.
  lemma ChoiceIsSorted(candidates: seq<Task>, k: nat)
    requires Sorted(candidates, ChosenBefore) && k < |candidates|
    ensures forall j | 0 <= j < k :: NoBetter(candidates[k], candidates[j])
    ensures forall j | k <= j < |candidates| :: NoBetter(candidates[j], candidates[k])
  {
    hide NoBetter;
    forall j | 0 <= j < k ensures NoBetter(candidates[k], candidates[j]) {
      NotBeforeIsNoBetter(candidates[k], candidates[j]);
    }
    forall j | k <= j < |candidates| ensures NoBetter(candidates[j], candidates[k]) {
      if j == k { NoBetterThanItself(candidates[k]); } else { NotBeforeIsNoBetter(candidates[j], candidates[k]); }
    }
  }

  lemma NoBetterThanItself(t: Task)
    ensures NoBetter(t, t)
  {
  }

  // ---- The selection as steps of the worker loop -------------------------------------------

  lemma {:induction false} EligibleOfShrinks(ts: seq<Task>, now: int, t: Task)
    ensures multiset(EligibleOf(ts, now))[t] <= multiset(ts)[t]
  {
    if ts != [] {
      EligibleOfShrinks(ts[1..], now, t);
      assert ts == [ts[0]] + ts[1..];
    }
  }

  lemma TwiceIsTwo(ts: seq<Task>, i: nat, j: nat)
    requires i < j < |ts| && ts[i] == ts[j]
    ensures multiset(ts)[ts[i]] >= 2
  {
    assert ts == ts[..j] + [ts[j]] + ts[j + 1..];
    assert ts[..j][i] == ts[i];
    assert multiset(ts)[ts[i]] == multiset(ts[..j])[ts[i]] + 1 + multiset(ts[j + 1..])[ts[i]];
  }

  lemma WindowIsOnce(s: Store, limit: nat, t: Task)
    requires Wellformed(s)
    ensures multiset(ListSourceTasks(s, limit))[t] <= 1
  {
    ListedBeforeIsOrder();
    ValuesAreTheTasks(s.order, s.tasks, t);
    SortIsSortedPermutation(Values(s.order, s.tasks), ListedBefore);
    hide Values, Sort, Sorted;
    TakeIsFewer(Sort(Values(s.order, s.tasks), ListedBefore), limit, t);
  }

  lemma TakeIsFewer<T>(s: seq<T>, limit: nat, t: T)
    ensures multiset(Take(s, limit))[t] <= multiset(s)[t]
  {
    assert s == Take(s, limit) + s[|Take(s, limit)|..];
  }

  lemma CandidateIsOnce(s: Store, now: int, t: Task)
    requires Wellformed(s)
    ensures multiset(Candidates(s, now))[t] <= 1
  {
    ChosenBeforeIsOrder();
    WindowIsOnce(s, WINDOW, t);
    EligibleOfShrinks(ListSourceTasks(s, WINDOW), now, t);
    hide ListSourceTasks, EligibleOf, Wellformed, Sort, Sorted;
    SortIsSortedPermutation(EligibleOf(ListSourceTasks(s, WINDOW), now), ChosenBefore);
  }

  lemma CandidateIdsAreDistinct(s: Store, now: int, i: nat, j: nat)
    requires Wellformed(s) && i < j < |Candidates(s, now)|
    ensures Candidates(s, now)[i].id != Candidates(s, now)[j].id
  {
    hide Candidates, Wellformed;
    var cs := Candidates(s, now);
    CandidatesAreReady(s, now, cs[i]);
    CandidatesAreReady(s, now, cs[j]);
    CandidateIsOnce(s, now, cs[i]);
    if cs[i] == cs[j] {
      TwiceIsTwo(cs, i, j);
    }
  }

  function BlockSteps(ts: seq<Task>, now: int): seq<TaskLifecycle.Step> {
    seq(|ts|, i requires 0 <= i < |ts| => TaskLifecycle.BlockScopeless(ts[i].id, now))
  }

  // The worker after the tasks of `ts` turned blocked.
  function AfterBlocking(sys: TaskLifecycle.System, ts: seq<Task>, now: int): TaskLifecycle.System {
    sys.(store := BlockAll(sys.store, ts, now), clock := if ts == [] then sys.clock else now)
  }

  // Tasks that can be blocked one after the other.
  ghost predicate Blockable(s: Store, ts: seq<Task>, now: int) {
    && (forall i | 0 <= i < |ts| :: Ready(s, ts[i], now) && ts[i].editScopes == [])
    && (forall i, j | 0 <= i < j < |ts| :: ts[i].id != ts[j].id)
  }

  lemma BlockFirst(sys: TaskLifecycle.System, ts: seq<Task>, now: int, maxFailures: nat)
    requires Wellformed(sys.store) && sys.worker.Resting? && sys.clock <= now && ts != []
    requires Blockable(sys.store, ts, now)
    ensures var step := TaskLifecycle.BlockScopeless(ts[0].id, now);
            && TaskLifecycle.Enabled(sys, step)
            && var sys1 := TaskLifecycle.Apply(sys, step, maxFailures);
               && Wellformed(sys1.store) && sys1.worker.Resting? && sys1.clock == now
               && Blockable(sys1.store, ts[1..], now)
               && AfterBlocking(sys1, ts[1..], now) == AfterBlocking(sys, ts, now)
  {
    hide UpdateStatus, Wellformed;
    UpdateStatusEffect(sys.store, ts[0].id, Blocked, None, Some(NO_SCOPES), now);
    assert forall i | 0 < i < |ts| :: ts[1..][i - 1] == ts[i];
  }

  lemma {:induction false} BlockingIsSteps(
      sys: TaskLifecycle.System, ts: seq<Task>, now: int, rest: seq<TaskLifecycle.Step>, maxFailures: nat)
    requires Wellformed(sys.store) && sys.worker.Resting? && sys.clock <= now && Blockable(sys.store, ts, now)
    requires TaskLifecycle.CanRun(AfterBlocking(sys, ts, now), rest, maxFailures)
    ensures var steps := BlockSteps(ts, now) + rest;
            && TaskLifecycle.CanRun(sys, steps, maxFailures)
            && TaskLifecycle.Trace(sys, steps, maxFailures)
               == TaskLifecycle.Trace(AfterBlocking(sys, ts, now), rest, maxFailures)
    decreases |ts|
  {
    hide AfterBlocking, Blockable, Wellformed, BlockSteps;
    hide TaskLifecycle.Enabled, TaskLifecycle.Apply, TaskLifecycle.CanRun, TaskLifecycle.Trace;
    if ts == [] {
      BlockingNothing(sys, ts, now, rest);
    } else {
      var step, more := TaskLifecycle.BlockScopeless(ts[0].id, now), BlockSteps(ts[1..], now) + rest;
      BlockFirst(sys, ts, now, maxFailures);
      BlockStepsCons(ts, now, rest);
      BlockingIsSteps(TaskLifecycle.Apply(sys, step, maxFailures), ts[1..], now, rest, maxFailures);
      TaskLifecycle.TraceCons(sys, step, more, maxFailures);
    }
  }

  lemma BlockingNothing(sys: TaskLifecycle.System, ts: seq<Task>, now: int, rest: seq<TaskLifecycle.Step>)
    requires ts == []
    ensures BlockSteps(ts, now) + rest == rest && AfterBlocking(sys, ts, now) == sys
  {
  }

  lemma BlockStepsCons(ts: seq<Task>, now: int, rest: seq<TaskLifecycle.Step>)
    requires ts != []
    ensures BlockSteps(ts, now) + rest
            == [TaskLifecycle.BlockScopeless(ts[0].id, now)] + (BlockSteps(ts[1..], now) + rest)
  {
  }

  lemma CandidatesAreBlockable(s: Store, now: int, k: nat)
    requires Wellformed(s) && k <= |Candidates(s, now)|
    requires forall i | 0 <= i < k :: Candidates(s, now)[i].editScopes == []
    ensures Blockable(s, Candidates(s, now)[..k], now)
  {
    hide Candidates, Wellformed, Ready;
    var cs := Candidates(s, now);
    forall i | 0 <= i < k ensures Ready(s, cs[i], now) {
      CandidatesAreReady(s, now, cs[i]);
    }
    forall i, j | 0 <= i < j < k ensures cs[i].id != cs[j].id {
      CandidateIdsAreDistinct(s, now, i, j);
    }
  }

  lemma NextStaysReady(s: Store, now: int, k: nat)
    requires Wellformed(s) && k < |Candidates(s, now)|
    ensures var c, s' := Candidates(s, now)[k], BlockAll(s, Candidates(s, now)[..k], now);
            c.id in s'.tasks && s'.tasks[c.id] == c && TaskLifecycle.Eligible(c, now)
  {
    hide Candidates, Wellformed, BlockAll;
    var cs := Candidates(s, now);
    CandidatesAreReady(s, now, cs[k]);
    forall i | 0 <= i < k ensures cs[i].id != cs[k].id {
      CandidateIdsAreDistinct(s, now, i, k);
    }
    BlockAllEffect(s, cs[..k], now, cs[k].id);
  }

  /**
   * A selection is a run of the worker loop's own steps: some scope-less tasks blocked, then the
   * chosen one taken, whatever the size of the store.
   */
  lemma SelectionIsSteps(sys: TaskLifecycle.System, now: int, maxFailures: nat) returns (steps: seq<TaskLifecycle.Step>)
    requires Wellformed(sys.store) && sys.worker.Resting? && sys.clock <= now
    ensures TaskLifecycle.CanRun(sys, steps, maxFailures)
    ensures var after := TaskLifecycle.Trace(sys, steps, maxFailures);
            var (store', chosen) := NextTask(sys.store, now);
            && after.store == store' && after.started == sys.started && after.recovered == sys.recovered
            && after.worker == if chosen.Some? then TaskLifecycle.Chosen(chosen.value.id) else TaskLifecycle.Resting
  {
    var s, cs := sys.store, Candidates(sys.store, now);
    hide Candidates, BlockAll, Wellformed, PickScoped;
    var k := PickIsFirstScoped(s, cs, now);
    CandidatesAreBlockable(s, now, k);
    var after := AfterBlocking(sys, cs[..k], now);
    var rest := [];
    if k < |cs| {
      NextStaysReady(s, now, k);
      rest := [TaskLifecycle.Choose(cs[k].id, now)];
      assert TaskLifecycle.Enabled(after, rest[0]);
      assert rest[1..] == [];
    }
    assert TaskLifecycle.CanRun(after, rest, maxFailures);
    steps := BlockSteps(cs[..k], now) + rest;
    BlockingIsSteps(sys, cs[..k], now, rest, maxFailures);
  }

  class TaskSources {
    const store: AgentTaskStore

    constructor (store: AgentTaskStore)
      ensures this.store == store
    {
      this.store := store;
    }

    method GetNextTask(now: int) returns (chosen: Option<Task>)
      requires Wellformed(store.Value())
      modifies store
      ensures (store.Value(), chosen) == NextTask(old(store.Value()), now) && Wellformed(store.Value())
    {
      var candidates := Candidates(store.Value(), now);
      var i := 0;
      while i < |candidates|
        invariant 0 <= i <= |candidates| && Wellformed(store.Value())
        invariant PickScoped(store.Value(), candidates[i..], now) == NextTask(old(store.Value()), now)
      {
        if candidates[i].editScopes != [] {
          return Some(candidates[i]);
        }
        store.UpdateSourceTaskStatus(candidates[i].id, Blocked, None, Some(NO_SCOPES), now);
        i := i + 1;
      }
      chosen := None;
    }
  }
}
