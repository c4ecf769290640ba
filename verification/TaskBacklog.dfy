/** The backlog: every step of every workstream of every phase, numbered through. */
module TaskBacklog {
  import opened Options
  import opened Strings
  import opened Sorting

  datatype Step = Step(titlePrefix: string, priorityOffset: Option<int>)
  datatype Workstream = Workstream(id: string, title: string, pattern: string)
  datatype Phase = Phase(id: string, basePriority: int, workstreams: seq<Workstream>)
  type Library = string -> seq<Step>

  datatype BacklogTask = BacklogTask(
    id: string, title: string, priority: int, phaseId: string, workstreamId: string, sequence: nat)

  function Pad2(n: nat): string {
    if n < 10 then "0" + Digits(n) else Digits(n)
  }

  function TaskId(phase: string, workstream: string, number: nat): string {
    phase + ":" + workstream + ":" + Pad2(number)
  }

  function ClampPriority(p: int): int {
    var capped := if p < 10 then p else 10;
    if capped > 1 then capped else 1
  }

  // The task of step `index`, as the `sequence`-th of the backlog.
  function TaskOf(p: Phase, w: Workstream, step: Step, index: nat, sequence: nat): BacklogTask {
    var offset := if step.priorityOffset.Some? then step.priorityOffset.value else 0;
    BacklogTask(TaskId(p.id, w.id, index + 1), step.titlePrefix + " " + w.title,
                ClampPriority(p.basePriority + offset), p.id, w.id, sequence)
  }

  function WorkstreamTasks(p: Phase, w: Workstream, steps: seq<Step>, before: nat): (tasks: seq<BacklogTask>)
    ensures |tasks| == |steps|
  {
    seq(|steps|, i requires 0 <= i < |steps| => TaskOf(p, w, steps[i], i, before + i + 1))
  }

  function PhaseTasks(p: Phase, ws: seq<Workstream>, library: Library, before: nat): seq<BacklogTask> {
    if ws == [] then []
    else
      var head := WorkstreamTasks(p, ws[0], library(ws[0].pattern), before);
      head + PhaseTasks(p, ws[1..], library, before + |head|)
  }

  function Backlog(phases: seq<Phase>, library: Library, before: nat): seq<BacklogTask> {
    if phases == [] then []
    else
      var head := PhaseTasks(phases[0], phases[0].workstreams, library, before);
      head + Backlog(phases[1..], library, before + |head|)
  }

  lemma NextWorkstream(p: Phase, j: nat, library: Library, before: nat)
    requires j < |p.workstreams|
    ensures var head := WorkstreamTasks(p, p.workstreams[j], library(p.workstreams[j].pattern), before);
            PhaseTasks(p, p.workstreams[j..], library, before)
            == head + PhaseTasks(p, p.workstreams[j + 1..], library, before + |head|)
  {
    assert p.workstreams[j..][1..] == p.workstreams[j + 1..];
  }

  lemma NextPhase(phases: seq<Phase>, i: nat, library: Library, before: nat)
    requires i < |phases|
    ensures var head := PhaseTasks(phases[i], phases[i].workstreams, library, before);
            Backlog(phases[i..], library, before) == head + Backlog(phases[i + 1..], library, before + |head|)
  {
    assert phases[i..][1..] == phases[i + 1..];
  }

  lemma NextStep(done: seq<BacklogTask>, p: Phase, w: Workstream, steps: seq<Step>, index: nat, before: nat)
    requires index < |steps|
    ensures var head := WorkstreamTasks(p, w, steps, before);
            done + head[..index] + [TaskOf(p, w, steps[index], index, before + index + 1)] == done + head[..index + 1]
  {
  }

  lemma Regroup<T>(a: seq<T>, b: seq<T>, c: seq<T>)
    ensures a + b + c == a + (b + c)
  {
  }

  method CreateBacklog(phases: seq<Phase>, library: Library) returns (tasks: seq<BacklogTask>)
    ensures tasks == Backlog(phases, library, 0)
  {
    tasks := [];
    var i := 0;
    assert phases[0..] == phases;
    hide *;
    while i < |phases|
      invariant 0 <= i <= |phases|
      invariant tasks + Backlog(phases[i..], library, |tasks|) == Backlog(phases, library, 0)
    {
      NextPhase(phases, i, library, |tasks|);
      ghost var whole := PhaseTasks(phases[i], phases[i].workstreams, library, |tasks|);
      Regroup(tasks, whole, Backlog(phases[i + 1..], library, |tasks| + |whole|));
      tasks := PushPhase(phases[i], library, tasks);
      i := i + 1;
    }
    BacklogIsDone(phases, library, |tasks|);
  }

  method PushPhase(phase: Phase, library: Library, before: seq<BacklogTask>) returns (tasks: seq<BacklogTask>)
    ensures tasks == before + PhaseTasks(phase, phase.workstreams, library, |before|)
  {
    tasks := before;
    ghost var all := before + PhaseTasks(phase, phase.workstreams, library, |before|);
    var j := 0;
    assert phase.workstreams[0..] == phase.workstreams;
    hide *;
    while j < |phase.workstreams|
      invariant 0 <= j <= |phase.workstreams|
      invariant tasks + PhaseTasks(phase, phase.workstreams[j..], library, |tasks|) == all
    {
      var pattern := library(phase.workstreams[j].pattern);
      NextWorkstream(phase, j, library, |tasks|);
      ghost var head := WorkstreamTasks(phase, phase.workstreams[j], pattern, |tasks|);
      Regroup(tasks, head, PhaseTasks(phase, phase.workstreams[j + 1..], library, |tasks| + |head|));
      tasks := PushWorkstream(phase, phase.workstreams[j], pattern, tasks);
      j := j + 1;
    }
    PhaseIsDone(phase, library, |tasks|);
  }

  // The innermost loop; the running sequence is the number of tasks pushed so far.
  method PushWorkstream(phase: Phase, workstream: Workstream, pattern: seq<Step>, before: seq<BacklogTask>)
      returns (tasks: seq<BacklogTask>)
    ensures tasks == before + WorkstreamTasks(phase, workstream, pattern, |before|)
  {
    tasks := before;
    ghost var all := WorkstreamTasks(phase, workstream, pattern, |before|);
    var sequence, index := |before|, 0;
    hide *;
    while index < |pattern|
      invariant 0 <= index <= |pattern| && sequence == |before| + index
      invariant tasks == before + all[..index]
    {
      NextStep(before, phase, workstream, pattern, index, |before|);
      sequence := sequence + 1;
      tasks := tasks + [TaskOf(phase, workstream, pattern[index], index, sequence)];
      index := index + 1;
    }
    assert all[..index] == all;
  }

  lemma PhaseIsDone(p: Phase, library: Library, before: nat)
    ensures PhaseTasks(p, p.workstreams[|p.workstreams|..], library, before) == []
  {
  }

  lemma BacklogIsDone(phases: seq<Phase>, library: Library, before: nat)
    ensures Backlog(phases[|phases|..], library, before) == []
  {
  }

  // ---- How many, and numbered how ----------------------------------------------------------

  // A phase summary's commit count.
  function CommitCount(ws: seq<Workstream>, library: Library): nat {
    if ws == [] then 0 else |library(ws[0].pattern)| + CommitCount(ws[1..], library)
  }

  function TotalCommits(phases: seq<Phase>, library: Library): nat {
    if phases == [] then 0 else CommitCount(phases[0].workstreams, library) + TotalCommits(phases[1..], library)
  }

  predicate Numbered(tasks: seq<BacklogTask>, before: nat) {
    forall i | 0 <= i < |tasks| :: tasks[i].sequence == before + i + 1
  }

  lemma NumberedTogether(a: seq<BacklogTask>, b: seq<BacklogTask>, before: nat)
    requires Numbered(a, before) && Numbered(b, before + |a|)
    ensures Numbered(a + b, before)
  {
  }

  lemma {:induction false} PhaseIsNumbered(p: Phase, ws: seq<Workstream>, library: Library, before: nat)
    ensures Numbered(PhaseTasks(p, ws, library, before), before)
    ensures |PhaseTasks(p, ws, library, before)| == CommitCount(ws, library)
  {
    if ws != [] {
      var head := WorkstreamTasks(p, ws[0], library(ws[0].pattern), before);
      assert Numbered(head, before);
      PhaseIsNumbered(p, ws[1..], library, before + |head|);
      hide Numbered;
      NumberedTogether(head, PhaseTasks(p, ws[1..], library, before + |head|), before);
    }
  }

  /** The sequence numbers are exactly 1 to n, and n is what the phase summaries add up to. */
  lemma {:induction false} BacklogIsNumbered(phases: seq<Phase>, library: Library, before: nat)
    ensures Numbered(Backlog(phases, library, before), before)
    ensures |Backlog(phases, library, before)| == TotalCommits(phases, library)
  {
    if phases != [] {
      var head := PhaseTasks(phases[0], phases[0].workstreams, library, before);
      PhaseIsNumbered(phases[0], phases[0].workstreams, library, before);
      BacklogIsNumbered(phases[1..], library, before + |head|);
      hide PhaseTasks, CommitCount, Numbered;
      NumberedTogether(head, Backlog(phases[1..], library, before + |head|), before);
    }
  }

  // ---- Every step has its task -------------------------------------------------------------

  lemma {:induction false} PhaseHasEveryStep(
      p: Phase, ws: seq<Workstream>, library: Library, before: nat, w: Workstream, i: nat) returns (t: BacklogTask)
    requires w in ws && i < |library(w.pattern)|
    ensures t in PhaseTasks(p, ws, library, before)
    ensures t == TaskOf(p, w, library(w.pattern)[i], i, t.sequence)
  {
    var head := WorkstreamTasks(p, ws[0], library(ws[0].pattern), before);
    if w == ws[0] {
      t := head[i];
    } else {
      t := PhaseHasEveryStep(p, ws[1..], library, before + |head|, w, i);
    }
  }

  /** No step of any workstream of any phase is left out. */
  lemma {:induction false} BacklogHasEveryStep(
      phases: seq<Phase>, library: Library, before: nat, p: Phase, w: Workstream, i: nat) returns (t: BacklogTask)
    requires p in phases && w in p.workstreams && i < |library(w.pattern)|
    ensures t in Backlog(phases, library, before)
    ensures t.id == TaskId(p.id, w.id, i + 1) && 1 <= t.priority <= 10
    ensures var step := library(w.pattern)[i];
            var wanted := p.basePriority + match step.priorityOffset case None => 0 case Some(offset) => offset;
            && (1 <= wanted <= 10 ==> t.priority == wanted)
            && (wanted < 1 ==> t.priority == 1) && (wanted > 10 ==> t.priority == 10)
            && t.title == step.titlePrefix + " " + w.title && t.phaseId == p.id && t.workstreamId == w.id
    ensures t == TaskOf(p, w, library(w.pattern)[i], i, t.sequence)
  {
    var head := PhaseTasks(phases[0], phases[0].workstreams, library, before);
    if p == phases[0] {
      t := PhaseHasEveryStep(p, p.workstreams, library, before, w, i);
    } else {
      t := BacklogHasEveryStep(phases[1..], library, before + |head|, p, w, i);
    }
  }

  lemma {:induction false} PhaseTaskAt(p: Phase, ws: seq<Workstream>, library: Library, before: nat, b: nat, i: nat)
    requires b < |ws| && i < |library(ws[b].pattern)|
    ensures var tasks, k := PhaseTasks(p, ws, library, before), CommitCount(ws[..b], library) + i;
            k < |tasks| && tasks[k] == TaskOf(p, ws[b], library(ws[b].pattern)[i], i, before + k + 1)
  {
    if b > 0 {
      PhaseTaskAt(p, ws[1..], library, before + |library(ws[0].pattern)|, b - 1, i);
      assert ws[..b][1..] == ws[1..][..b - 1];
    }
  }

  // How many tasks come before step i of workstream b of phase a.
  function TasksBefore(phases: seq<Phase>, library: Library, a: nat, b: nat, i: nat): nat
    requires a < |phases| && b < |phases[a].workstreams|
  {
    TotalCommits(phases[..a], library) + CommitCount(phases[a].workstreams[..b], library) + i
  }

  lemma FirstPhaseTaskAt(phases: seq<Phase>, library: Library, before: nat, b: nat, i: nat)
    requires phases != [] && b < |phases[0].workstreams| && i < |library(phases[0].workstreams[b].pattern)|
    ensures var tasks, k, w := Backlog(phases, library, before), TasksBefore(phases, library, 0, b, i),
                               phases[0].workstreams[b];
            k < |tasks| && tasks[k] == TaskOf(phases[0], w, library(w.pattern)[i], i, before + k + 1)
  {
    assert phases[..0] == [];
    assert TotalCommits([], library) == 0;
    hide PhaseTasks, CommitCount, TaskOf;
    PhaseTaskAt(phases[0], phases[0].workstreams, library, before, b, i);
  }

  /**
   * Tasks stand in the order of the tables: before a step's task are those of all earlier phases,
   * of all earlier workstreams of its phase, and of all earlier steps.
   */
  lemma {:induction false} BacklogTaskAt(phases: seq<Phase>, library: Library, before: nat, a: nat, b: nat, i: nat)
    requires a < |phases| && b < |phases[a].workstreams| && i < |library(phases[a].workstreams[b].pattern)|
    ensures var tasks, k, w := Backlog(phases, library, before), TasksBefore(phases, library, a, b, i),
                               phases[a].workstreams[b];
            k < |tasks| && tasks[k] == TaskOf(phases[a], w, library(w.pattern)[i], i, before + k + 1)
    decreases a
  {
    hide PhaseTasks, CommitCount, Numbered, Backlog, TotalCommits, TaskOf;
    if a == 0 {
      FirstPhaseTaskAt(phases, library, before, b, i);
    } else {
      var n := |PhaseTasks(phases[0], phases[0].workstreams, library, before)|;
      PhaseIsNumbered(phases[0], phases[0].workstreams, library, before);
      BacklogTaskAt(phases[1..], library, before + n, a - 1, b, i);
      TotalOfMore(phases, a, library);
      LaterPhases(phases, library, before, TasksBefore(phases[1..], library, a - 1, b, i));
    }
  }

  lemma LaterPhases(phases: seq<Phase>, library: Library, before: nat, j: nat)
    requires phases != []
    ensures var n := |PhaseTasks(phases[0], phases[0].workstreams, library, before)|;
            var all, later := Backlog(phases, library, before), Backlog(phases[1..], library, before + n);
            j < |later| ==> n + j < |all| && all[n + j] == later[j]
  {
    hide PhaseTasks;
  }

  lemma TotalOfMore(phases: seq<Phase>, a: nat, library: Library)
    requires 0 < a <= |phases|
    ensures TotalCommits(phases[..a], library)
            == CommitCount(phases[0].workstreams, library) + TotalCommits(phases[1..][..a - 1], library)
  {
    assert phases[..a][1..] == phases[1..][..a - 1];
  }

  // ---- Every id names one task -------------------------------------------------------------

  ghost predicate WellNamed(t: BacklogTask) {
    exists n: nat :: t.id == TaskId(t.phaseId, t.workstreamId, n)
  }

  ghost predicate DistinctIds(tasks: seq<BacklogTask>) {
    forall i, j | 0 <= i < j < |tasks| :: tasks[i].id != tasks[j].id
  }

  // Tasks named after their phase and workstream, all of these among `owners`.
  ghost predicate OwnedBy(tasks: seq<BacklogTask>, owners: set<(string, string)>) {
    forall t | t in tasks ::
      WellNamed(t) && ':' !in t.phaseId && ':' !in t.workstreamId && (t.phaseId, t.workstreamId) in owners
  }

  ghost function OwnersIn(p: string, ws: seq<Workstream>): set<(string, string)> {
    set w | w in ws :: (p, w.id)
  }

  ghost function Owners(phases: seq<Phase>): set<(string, string)> {
    set p, w | p in phases && w in p.workstreams :: (p.id, w.id)
  }

  // No two phases share an id, nor two workstreams of a phase, and no id holds a colon.
  ghost predicate UniqueWorkstreams(ws: seq<Workstream>) {
    && (forall w | w in ws :: ':' !in w.id)
    && forall i, j | 0 <= i < j < |ws| :: ws[i].id != ws[j].id
  }

  ghost predicate UniquePhases(phases: seq<Phase>) {
    && (forall p | p in phases :: ':' !in p.id && UniqueWorkstreams(p.workstreams))
    && forall i, j | 0 <= i < j < |phases| :: phases[i].id != phases[j].id
  }

  lemma PadReadsBack(n: nat)
    ensures ReadDigits(Pad2(n), 0) == n && ':' !in Pad2(n)
    ensures |Pad2(n)| >= 2 && (n < 100 ==> |Pad2(n)| == 2)
  {
    DigitsAreDigits(n);
    ReadsBack(n, "");
    assert Digits(n) + "" == Digits(n);
    if n < 10 {
      assert Pad2(n)[1..] == Digits(n);
    }
  }

  /** An id tells its phase, workstream and step apart. */
  lemma IdsReadBack(p: string, w: string, n: nat, p': string, w': string, n': nat)
    requires ':' !in p && ':' !in w && ':' !in p' && ':' !in w'
    requires TaskId(p, w, n) == TaskId(p', w', n')
    ensures p == p' && w == w' && n == n'
  {
    var a, b := [p, w, Pad2(n)], [p', w', Pad2(n')];
    PadReadsBack(n);
    PadReadsBack(n');
    IdIsJoin(p, w, n);
    IdIsJoin(p', w', n');
    SplitOfJoin(a, ':');
    SplitOfJoin(b, ':');
    assert a[0] == b[0] && a[1] == b[1] && a[2] == b[2];
  }

  lemma IdIsJoin(p: string, w: string, n: nat)
    ensures TaskId(p, w, n) == Join([p, w, Pad2(n)], ':')
  {
    var parts := [p, w, Pad2(n)];
    assert parts[1..] == [w, Pad2(n)] && parts[1..][1..] == [Pad2(n)];
    assert Join(parts[1..], ':') == w + [':'] + Pad2(n);
    assert TaskId(p, w, n) == p + [':'] + (w + [':'] + Pad2(n));
  }

  lemma SameIdSameOwner(t: BacklogTask, u: BacklogTask)
    requires WellNamed(t) && WellNamed(u) && t.id == u.id
    requires ':' !in t.phaseId && ':' !in t.workstreamId && ':' !in u.phaseId && ':' !in u.workstreamId
    ensures t.phaseId == u.phaseId && t.workstreamId == u.workstreamId
  {
    var n: nat :| t.id == TaskId(t.phaseId, t.workstreamId, n);
    var n': nat :| u.id == TaskId(u.phaseId, u.workstreamId, n');
    IdsReadBack(t.phaseId, t.workstreamId, n, u.phaseId, u.workstreamId, n');
  }

  lemma ApartTogether(
      a: seq<BacklogTask>, b: seq<BacklogTask>, x: set<(string, string)>, y: set<(string, string)>)
    requires DistinctIds(a) && DistinctIds(b) && OwnedBy(a, x) && OwnedBy(b, y) && x !! y
    ensures DistinctIds(a + b) && OwnedBy(a + b, x + y)
  {
    hide WellNamed;
    var s := a + b;
    forall i, j | 0 <= i < j < |s| ensures s[i].id != s[j].id {
      if i < |a| <= j && s[i].id == s[j].id {
        assert s[i] in a && s[j] in b;
        SameIdSameOwner(s[i], s[j]);
      }
    }
  }

  lemma NoTasksAreDistinct(owners: set<(string, string)>)
    ensures DistinctIds([]) && OwnedBy([], owners)
  {
  }

  lemma WorkstreamHasDistinctIds(p: Phase, w: Workstream, steps: seq<Step>, before: nat)
    requires ':' !in p.id && ':' !in w.id
    ensures DistinctIds(WorkstreamTasks(p, w, steps, before))
    ensures OwnedBy(WorkstreamTasks(p, w, steps, before), {(p.id, w.id)})
  {
    var tasks := WorkstreamTasks(p, w, steps, before);
    forall i, j | 0 <= i < j < |tasks| ensures tasks[i].id != tasks[j].id {
      if tasks[i].id == tasks[j].id { IdsReadBack(p.id, w.id, i + 1, p.id, w.id, j + 1); }
    }
  }

  lemma {:induction false} PhaseHasDistinctIds(p: Phase, ws: seq<Workstream>, library: Library, before: nat)
    requires ':' !in p.id && UniqueWorkstreams(ws)
    ensures DistinctIds(PhaseTasks(p, ws, library, before))
    ensures OwnedBy(PhaseTasks(p, ws, library, before), OwnersIn(p.id, ws))
  {
    hide WorkstreamTasks, DistinctIds, OwnedBy;
    if ws == [] {
      NoTasksAreDistinct(OwnersIn(p.id, ws));
    } else {
      var head := WorkstreamTasks(p, ws[0], library(ws[0].pattern), before);
      WorkstreamHasDistinctIds(p, ws[0], library(ws[0].pattern), before);
      PhaseHasDistinctIds(p, ws[1..], library, before + |head|);
      ApartTogether(head, PhaseTasks(p, ws[1..], library, before + |head|),
                    {(p.id, ws[0].id)}, OwnersIn(p.id, ws[1..]));
      assert OwnersIn(p.id, ws) == {(p.id, ws[0].id)} + OwnersIn(p.id, ws[1..]);
    }
  }

  lemma OwnersSplit(phases: seq<Phase>)
    requires phases != []
    ensures Owners(phases) == OwnersIn(phases[0].id, phases[0].workstreams) + Owners(phases[1..])
    ensures UniquePhases(phases) ==>
              && OwnersIn(phases[0].id, phases[0].workstreams) !! Owners(phases[1..])
              && ':' !in phases[0].id && UniqueWorkstreams(phases[0].workstreams) && UniquePhases(phases[1..])
  {
    hide UniqueWorkstreams;
    assert phases == [phases[0]] + phases[1..];
  }

  /** No two tasks of the backlog share an id. */
  lemma {:induction false} BacklogHasDistinctIds(phases: seq<Phase>, library: Library, before: nat)
    requires UniquePhases(phases)
    ensures DistinctIds(Backlog(phases, library, before))
    ensures OwnedBy(Backlog(phases, library, before), Owners(phases))
  {
    hide PhaseTasks, DistinctIds, OwnedBy, Owners, OwnersIn, UniquePhases, UniqueWorkstreams;
    if phases == [] {
      NoTasksAreDistinct(Owners(phases));
    } else {
      var p := phases[0];
      var head := PhaseTasks(p, p.workstreams, library, before);
      OwnersSplit(phases);
      PhaseHasDistinctIds(p, p.workstreams, library, before);
      BacklogHasDistinctIds(phases[1..], library, before + |head|);
      ApartTogether(head, Backlog(phases[1..], library, before + |head|),
                    OwnersIn(p.id, p.workstreams), Owners(phases[1..]));
    }
  }

  // ---- Orders ------------------------------------------------------------------------------

  predicate EarlierSequence(a: BacklogTask, b: BacklogTask) {
    a.sequence < b.sequence
  }

  predicate MoreUrgent(a: BacklogTask, b: BacklogTask) {
    a.priority > b.priority || (a.priority == b.priority && a.sequence < b.sequence)
  }

  function GetOrderedBacklog(tasks: seq<BacklogTask>): seq<BacklogTask> {
    Sort(tasks, EarlierSequence)
  }

  function GetTasksByPriority(tasks: seq<BacklogTask>): seq<BacklogTask> {
    Sort(tasks, MoreUrgent)
  }

  /** The same tasks, each once, most urgent first; equals stay in sequence. */
  lemma ByPriorityIsStrictlyOrdered(phases: seq<Phase>, library: Library)
    ensures var tasks := Backlog(phases, library, 0);
            var out := GetTasksByPriority(tasks);
            && multiset(out) == multiset(tasks)
            && forall i, j | 0 <= i < j < |out| ::
                 out[i].priority > out[j].priority
                 || (out[i].priority == out[j].priority && out[i].sequence < out[j].sequence)
  {
    var tasks := Backlog(phases, library, 0);
    var out := GetTasksByPriority(tasks);
    BacklogIsNumbered(phases, library, 0);
    SortIsSortedPermutation(tasks, MoreUrgent);
    forall i, j | 0 <= i < j < |out| ensures MoreUrgent(out[i], out[j]) {
      assert !MoreUrgent(out[j], out[i]);
      if out[i].sequence == out[j].sequence { SequenceIsUnique(tasks, out, i, j); }
    }
  }

  lemma SequenceIsUnique(tasks: seq<BacklogTask>, out: seq<BacklogTask>, i: nat, j: nat)
    requires Numbered(tasks, 0) && multiset(out) == multiset(tasks) && i < j < |out|
    ensures out[i].sequence != out[j].sequence
  {
    if out[i].sequence == out[j].sequence {
      var t := out[i];
      assert t in multiset(tasks) && out[j] in multiset(tasks);
      assert t == out[j] == tasks[t.sequence - 1];
      OccursTwice(out, i, j);
      OccursOnce(tasks, t.sequence - 1);
      assert false;
    }
  }

  lemma OccursTwice(s: seq<BacklogTask>, i: nat, j: nat)
    requires i < j < |s| && s[i] == s[j]
    ensures multiset(s)[s[i]] >= 2
  {
    assert s == s[..j] + [s[j]] + s[j + 1..];
    assert s[i] in s[..j];
  }

  lemma OccursOnce(s: seq<BacklogTask>, k: nat)
    requires Numbered(s, 0) && k < |s|
    ensures multiset(s)[s[k]] == 1
  {
    assert s == s[..k] + [s[k]] + s[k + 1..];
    assert s[k] !in s[..k] && s[k] !in s[k + 1..];
  }

  lemma {:induction false} SortKeepsNumbered(tasks: seq<BacklogTask>, before: nat)
    requires Numbered(tasks, before)
    ensures GetOrderedBacklog(tasks) == tasks
  {
    if tasks != [] {
      SortKeepsNumbered(tasks[1..], before + 1);
    }
  }

  // ---- Working it off ----------------------------------------------------------------------

  function FirstOpen(tasks: seq<BacklogTask>, completed: set<string>): Option<BacklogTask> {
    if tasks == [] then None
    else if tasks[0].id !in completed then Some(tasks[0])
    else FirstOpen(tasks[1..], completed)
  }

  function Open(tasks: seq<BacklogTask>, completed: set<string>): seq<BacklogTask> {
    if tasks == [] then []
    else (if tasks[0].id !in completed then [tasks[0]] else []) + Open(tasks[1..], completed)
  }

  // What k rounds of "take the next task, mark it complete" hand out.
  function Handed(tasks: seq<BacklogTask>, completed: set<string>, k: nat): seq<BacklogTask>
    decreases k
  {
    var next := FirstOpen(GetOrderedBacklog(tasks), completed);
    if k == 0 || next.None? then []
    else [next.value] + Handed(tasks, completed + {next.value.id}, k - 1)
  }

  lemma {:induction false} OpenShrinks(tasks: seq<BacklogTask>, completed: set<string>)
    requires DistinctIds(tasks)
    ensures var next := FirstOpen(tasks, completed);
            var open := Open(tasks, completed);
            if next.None? then open == []
            else open == [next.value] + Open(tasks, completed + {next.value.id})
  {
    if tasks != [] {
      if tasks[0].id !in completed {
        OpenIgnores(tasks[1..], completed, tasks[0].id);
      } else {
        OpenShrinks(tasks[1..], completed);
      }
    }
  }

  lemma {:induction false} OpenIgnores(tasks: seq<BacklogTask>, completed: set<string>, id: string)
    requires forall t | t in tasks :: t.id != id
    ensures Open(tasks, completed + {id}) == Open(tasks, completed)
  {
    if tasks != [] {
      OpenIgnores(tasks[1..], completed, id);
    }
  }

  /** Working the backlog off hands out the open tasks in sequence, each exactly once, until none is left. */
  lemma {:induction false} WorkIsHandedInOrder(tasks: seq<BacklogTask>, completed: set<string>, k: nat)
    requires DistinctIds(tasks) && Numbered(tasks, 0)
    ensures var open := Open(tasks, completed);
            Handed(tasks, completed, k) == if k < |open| then open[..k] else open
    decreases k
  {
    SortKeepsNumbered(tasks, 0);
    OpenShrinks(tasks, completed);
    var next := FirstOpen(tasks, completed);
    if k > 0 && next.Some? {
      WorkIsHandedInOrder(tasks, completed + {next.value.id}, k - 1);
    }
  }

  /** From a generated backlog, nothing completed: the first k tasks, in order. */
  lemma FreshWorkIsTheBacklog(phases: seq<Phase>, library: Library, k: nat)
    requires UniquePhases(phases)
    ensures var tasks := Backlog(phases, library, 0);
            Handed(tasks, {}, k) == if k < |tasks| then tasks[..k] else tasks
  {
    var tasks := Backlog(phases, library, 0);
    BacklogIsNumbered(phases, library, 0);
    BacklogHasDistinctIds(phases, library, 0);
    WorkIsHandedInOrder(tasks, {}, k);
    NothingCompleted(tasks);
  }

  lemma {:induction false} NothingCompleted(tasks: seq<BacklogTask>)
    ensures Open(tasks, {}) == tasks
  {
    if tasks != [] {
      NothingCompleted(tasks[1..]);
    }
  }

  class Progress {
    const tasks: seq<BacklogTask>
    var completed: set<string>

    constructor (tasks: seq<BacklogTask>)
      ensures this.tasks == tasks && completed == {}
    {
      this.tasks := tasks;
      completed := {};
    }

    method GetNextBacklogTask() returns (next: Option<BacklogTask>)
      ensures next == FirstOpen(GetOrderedBacklog(tasks), completed)
    {
      var ordered := GetOrderedBacklog(tasks);
      var i := 0;
      while i < |ordered| && ordered[i].id in completed
        invariant 0 <= i <= |ordered|
        invariant FirstOpen(ordered[i..], completed) == FirstOpen(ordered, completed)
      {
        assert ordered[i..][1..] == ordered[i + 1..];
        i := i + 1;
      }
      next := if i < |ordered| then Some(ordered[i]) else None;
    }

    method MarkBacklogTaskComplete(id: string)
      modifies this
      ensures completed == old(completed) + {id}
    {
      completed := completed + {id};
    }
  }
}
