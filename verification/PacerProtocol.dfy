/**
 * Any number of pacers, without leader election, sharing one remote and one history. Each has its
 * own remote-tracking view of the publish branch. Steps are the stretches between awaits. The
 * history may be lost (a restart of the in-memory store): safety rests on the branch alone.
 */
module PacerProtocol {
  import opened Options
  import opened GitHistory
  import opened PublishQueue
  import PacedPusher

  datatype Phase =
    | Idle
    | Picked(source: Commit)
    | Skipping(source: Commit, found: Option<Commit>)
    | Built(source: Commit, commit: Commit)
    | Landed(source: Commit, commit: Commit)

  datatype Pacer = Pacer(view: Commit, phase: Phase)

  // `landed` logs, oldest first, the pacer pushes that moved the branch.
  datatype System = System(
    tip: Commit, queue: seq<Commit>, store: State, pacers: map<nat, Pacer>, landed: seq<Commit>)

  datatype Config = Config(quality: Commit -> bool, sanitize: string -> string, interval: int)

  datatype Step =
    | Fetch(id: nat)
    | Pick(id: nat)
    | Check(id: nat, now: int)
    | Push(id: nat)
    | MarkDone(id: nat, now: int)
    | Crash(id: nat)
    | LoseHistory
    | Join(id: nat)
    | OthersPush(tip: Commit)
    | Enqueue(commits: seq<Commit>)

  // A push without force is accepted when the remote tip is in the pushed commit's history; a
  // push of the tip itself is accepted and changes nothing.
  predicate PushAccepted(tip: Commit, pushed: Commit) {
    Reaches(pushed, tip)
  }

  function SetPacer(s: System, id: nat, p: Pacer): System {
    s.(pacers := s.pacers[id := p])
  }

  predicate Enabled(s: System, step: Step) {
    match step
    case Fetch(id) => id in s.pacers && !s.pacers[id].phase.Built?
    case Pick(id) => id in s.pacers && s.pacers[id].phase.Idle?
                     && Unprocessed(s.store.history, s.pacers[id].view, s.queue) != []
    case Check(id, _) => id in s.pacers && s.pacers[id].phase.Picked?
    case Push(id) => id in s.pacers && s.pacers[id].phase.Built?
    case MarkDone(id, _) => id in s.pacers && (s.pacers[id].phase.Landed? || s.pacers[id].phase.Skipping?)
    case Crash(id) => id in s.pacers
    case LoseHistory => true
    case Join(id) => id !in s.pacers
    case OthersPush(tip) => PushAccepted(s.tip, tip)
    case Enqueue(_) => true
  }

  // The duplicate check, the quality gate and the building of the commit read one view.
  function Checked(s: System, p: Pacer, now: int, config: Config): Phase
    requires p.phase.Picked?
  {
    var c := p.phase.source;
    match PacedPusher.Judge(PacedPusher.World(s.store, p.view), c, config.quality)
    case Duplicate => Skipping(c, FindByTree(p.view, c.tree))
    case LowQuality => Skipping(c, None)
    case Published => Built(c, PacedPusher.Replay(p.view, c, now, config.sanitize))
  }

  function Apply(s: System, step: Step, config: Config): System
    requires Enabled(s, step)
  {
    match step
    case Fetch(id) => SetPacer(s, id, s.pacers[id].(view := s.tip))
    case Pick(id) =>
      var p := s.pacers[id];
      SetPacer(s, id, p.(phase := Picked(Unprocessed(s.store.history, p.view, s.queue)[0])))
    case Check(id, now) =>
      var p := s.pacers[id];
      SetPacer(s, id, p.(phase := Checked(s, p, now, config)))
    case Push(id) =>
      var p := s.pacers[id];
      var c := p.phase.commit;
      if PushAccepted(s.tip, c) then
        SetPacer(s, id, Pacer(c, Landed(p.phase.source, c)))
        .(tip := c, landed := if c == s.tip then s.landed else s.landed + [c])
      else SetPacer(s, id, p.(phase := Idle))
    case MarkDone(id, now) =>
      var p := s.pacers[id];
      var e := if p.phase.Landed? then Entry(p.phase.source, Some(p.phase.commit), false, true)
               else Entry(p.phase.source, p.phase.found, true, false);
      SetPacer(s, id, p.(phase := Idle)).(store := Mark(s.store, e, now, config.interval))
    case Crash(id) => SetPacer(s, id, s.pacers[id].(phase := Idle))
    case LoseHistory => s.(store := State([], None))
    case Join(id) => SetPacer(s, id, Pacer(s.tip, Idle))
    case OthersPush(tip) => s.(tip := tip)
    case Enqueue(commits) => s.(queue := s.queue + commits)
  }

  predicate CanRun(s: System, steps: seq<Step>, config: Config)
    decreases |steps|
  {
    steps != [] ==> Enabled(s, steps[0]) && CanRun(Apply(s, steps[0], config), steps[1..], config)
  }

  function Run(s: System, steps: seq<Step>, config: Config): System
    requires CanRun(s, steps, config)
    decreases |steps|
  {
    if steps == [] then s else Run(Apply(s, steps[0], config), steps[1..], config)
  }

  // ---- What every step keeps -------------------------------------------------------------

  ghost predicate PacerOk(tip: Commit, p: Pacer) {
    && Reaches(tip, p.view)
    && match p.phase
       case Idle => true
       case Picked(_) => true
       case Skipping(c, found) => found.Some? ==> Reaches(tip, found.value) && found.value.tree == c.tree
       case Built(c, commit) => commit.parents == [p.view] && commit.tree == c.tree && c.tree !in Trees(p.view)
       case Landed(c, commit) => Reaches(tip, commit) && commit.tree == c.tree
  }

  // A row that names a published commit names one on the branch, with the row's tree.
  ghost predicate RowOk(tip: Commit, row: HistoryRow) {
    && row.tree == row.source.tree
    && (!row.skippedDuplicate ==> row.published.Some?)
    && (row.published.Some? ==> Reaches(tip, row.published.value) && row.published.value.tree == row.tree)
  }

  ghost predicate LandedOk(tip: Commit, landed: seq<Commit>) {
    && (forall i | 0 <= i < |landed| :: Reaches(tip, landed[i]))
    && (forall i, j | 0 <= i < j < |landed| :: landed[i].tree != landed[j].tree)
  }

  ghost predicate Inv(s: System) {
    && (forall id | id in s.pacers :: PacerOk(s.tip, s.pacers[id]))
    && (forall i | 0 <= i < |s.store.history| :: RowOk(s.tip, s.store.history[i]))
    && SourcesAreDistinct(s.store.history)
    && LandedOk(s.tip, s.landed)
  }

  ghost predicate Fresh(s: System) {
    s.store.history == [] && s.landed == [] && forall id | id in s.pacers :: s.pacers[id] == Pacer(s.tip, Idle)
  }

  lemma FreshIsInv(s: System)
    requires Fresh(s)
    ensures Inv(s)
  {
  }

  /**
   * A push that moves the branch is built on the very tip it moves, and its tree is on no commit
   * of the branch, however stale the pacer's view may have been.
   */
  lemma MovingPushIsFresh(tip: Commit, p: Pacer)
    requires PacerOk(tip, p) && p.phase.Built?
    requires PushAccepted(tip, p.phase.commit) && p.phase.commit != tip
    ensures p.view == tip && p.phase.commit.parents == [tip] && p.phase.commit.tree !in Trees(tip)
  {
    var q :| q in p.phase.commit.parents && Reaches(q, tip);
    ReachesIsAntisymmetric(p.view, tip);
  }

  /** Whatever was true of an older tip stays true when the branch moves forward. */
  lemma TipMoves(s: System, tip: Commit)
    requires Inv(s) && Reaches(tip, s.tip)
    ensures Inv(s.(tip := tip))
  {
    forall c | Reaches(s.tip, c) ensures Reaches(tip, c) {
      ReachesIsTransitive(tip, s.tip, c);
    }
  }

  lemma PushKeepsInv(s: System, id: nat, config: Config)
    requires Inv(s) && Enabled(s, Push(id))
    ensures Inv(Apply(s, Push(id), config))
  {
    var p := s.pacers[id];
    var c := p.phase.commit;
    if PushAccepted(s.tip, c) {
      TipMoves(s, c);
      if c != s.tip {
        MovingPushIsFresh(s.tip, p);
        forall i | 0 <= i < |s.landed| ensures s.landed[i].tree != c.tree {
          AncestorTrees(s.tip, s.landed[i]);
        }
      }
    }
  }

  lemma MarkKeepsInv(s: System, id: nat, now: int, config: Config)
    requires Inv(s) && Enabled(s, MarkDone(id, now))
    ensures Inv(Apply(s, MarkDone(id, now), config))
  {
    var s' := Apply(s, MarkDone(id, now), config);
    var h, h' := s.store.history, s'.store.history;
    var p := s.pacers[id];
    if h' != h {
      var row := h'[|h|];
      assert RowOk(s.tip, row);
      assert h' == h + [row];
      forall i | 0 <= i < |h'| ensures RowOk(s'.tip, h'[i]) {
        if i < |h| { assert h'[i] == h[i]; }
      }
    }
  }

  lemma StepKeepsInv(s: System, step: Step, config: Config)
    requires Inv(s) && Enabled(s, step)
    ensures Inv(Apply(s, step, config)) && Reaches(Apply(s, step, config).tip, s.tip)
  {
    match step
    case Push(id) => PushKeepsInv(s, id, config);
    case MarkDone(id, now) => MarkKeepsInv(s, id, now, config);
    case OthersPush(tip) => TipMoves(s, tip);
    case Check(id, now) => CheckKeepsInv(s, id, now, config);
    case _ =>
  }

  lemma CheckKeepsInv(s: System, id: nat, now: int, config: Config)
    requires Inv(s) && Enabled(s, Check(id, now))
    ensures Inv(Apply(s, Check(id, now), config))
  {
    var p := s.pacers[id];
    FindByTreeIsExact(p.view, p.phase.source.tree);
    var found := FindByTree(p.view, p.phase.source.tree);
    if found.Some? {
      ReachesIsTransitive(s.tip, p.view, found.value);
    }
  }

  /** Safety over whole runs: the invariant, and a branch and a log of landed pushes that only grow. */
  lemma {:induction false} RunKeepsInv(s: System, steps: seq<Step>, config: Config)
    requires Inv(s) && CanRun(s, steps, config)
    ensures var s' := Run(s, steps, config);
            Inv(s') && Reaches(s'.tip, s.tip) && s.landed <= s'.landed
    decreases |steps|
  {
    if steps != [] {
      var s1 := Apply(s, steps[0], config);
      StepKeepsInv(s, steps[0], config);
      RunKeepsInv(s1, steps[1..], config);
      ReachesIsTransitive(Run(s, steps, config).tip, s1.tip, s.tip);
    }
  }

  /** Once a tree is on the publish branch, no pacer push of that tree ever moves the branch again. */
  lemma {:induction false} NeverRepublished(s: System, steps: seq<Step>, config: Config, tree: Tree)
    requires Inv(s) && CanRun(s, steps, config) && tree in Trees(s.tip)
    ensures var s' := Run(s, steps, config);
            s.landed <= s'.landed && forall i | |s.landed| <= i < |s'.landed| :: s'.landed[i].tree != tree
    decreases |steps|
  {
    if steps != [] {
      var step, s1 := steps[0], Apply(s, steps[0], config);
      StepKeepsInv(s, step, config);
      AncestorTrees(s1.tip, s.tip);
      NeverRepublished(s1, steps[1..], config, tree);
      if step.Push? && s1.landed != s.landed {
        MovingPushIsFresh(s.tip, s.pacers[step.id]);
      }
    }
  }

  /** A pacer that pushed and then dies at any later point: its source's tree stays off the log. */
  lemma CrashAfterPushIsSafe(s: System, id: nat, steps: seq<Step>, config: Config)
    requires Inv(s) && id in s.pacers && s.pacers[id].phase.Landed?
    requires CanRun(Apply(s, Crash(id), config), steps, config)
    ensures var s' := Run(Apply(s, Crash(id), config), steps, config);
            && s.pacers[id].phase.source.tree in Trees(s'.tip)
            && forall i | |s.landed| <= i < |s'.landed| :: s'.landed[i].tree != s.pacers[id].phase.source.tree
  {
    var s1 := Apply(s, Crash(id), config);
    AncestorTrees(s.tip, s.pacers[id].phase.commit);
    StepKeepsInv(s, Crash(id), config);
    NeverRepublished(s1, steps, config, s.pacers[id].phase.source.tree);
    RunKeepsInv(s1, steps, config);
    AncestorTrees(Run(s1, steps, config).tip, s1.tip);
  }

  /** From a fresh start, the pushes that moved the branch carried pairwise different trees. */
  lemma EveryTreeLandsOnce(s: System, steps: seq<Step>, config: Config)
    requires Fresh(s) && CanRun(s, steps, config)
    ensures var landed := Run(s, steps, config).landed;
            && (forall i, j | 0 <= i < j < |landed| :: landed[i].tree != landed[j].tree)
            && (forall i | 0 <= i < |landed| :: landed[i].tree !in Trees(s.tip))
  {
    FreshIsInv(s);
    RunKeepsInv(s, steps, config);
    forall tree | tree in Trees(s.tip)
      ensures forall i | 0 <= i < |Run(s, steps, config).landed| :: Run(s, steps, config).landed[i].tree != tree
    {
      NeverRepublished(s, steps, config, tree);
    }
  }

  // With nobody else pushing, the branch is the old one with the landed commits on top.
  ghost predicate Stacked(base: Commit, landed: seq<Commit>, tip: Commit)
    decreases |landed|
  {
    if landed == [] then tip == base
    else
      var n := |landed| - 1;
      landed[n] == tip && |tip.parents| == 1 && Stacked(base, landed[..n], tip.parents[0])
  }

  lemma StepKeepsStack(base: Commit, s: System, step: Step, config: Config)
    requires Inv(s) && Enabled(s, step) && Stacked(base, s.landed, s.tip) && !step.OthersPush?
    ensures var s' := Apply(s, step, config); Stacked(base, s'.landed, s'.tip)
  {
    hide Unprocessed, Mark;
    var s' := Apply(s, step, config);
    if step.Push? && s'.landed != s.landed {
      MovingPushIsFresh(s.tip, s.pacers[step.id]);
      assert s'.landed[..|s.landed|] == s.landed;
    }
  }

  lemma {:induction false} BranchIsStackOfLanded(base: Commit, s: System, steps: seq<Step>, config: Config)
    requires Inv(s) && CanRun(s, steps, config) && Stacked(base, s.landed, s.tip)
    requires forall i | 0 <= i < |steps| :: !steps[i].OthersPush?
    ensures var s' := Run(s, steps, config); Stacked(base, s'.landed, s'.tip)
    decreases |steps|
  {
    hide Inv, Enabled, Apply, Stacked;
    if steps != [] {
      StepKeepsInv(s, steps[0], config);
      StepKeepsStack(base, s, steps[0], config);
      BranchIsStackOfLanded(base, Apply(s, steps[0], config), steps[1..], config);
    }
  }

  /** Deaths, lost histories, new pacers and new commits may come at any time, foreign pushes onto the tip as well. */
  lemma TroubleIsAlwaysPossible(s: System, id: nat, commits: seq<Commit>, tip: Commit)
    ensures Enabled(s, LoseHistory) && Enabled(s, Enqueue(commits))
    ensures if id in s.pacers then Enabled(s, Crash(id)) else Enabled(s, Join(id))
    ensures tip.parents == [s.tip] ==> Enabled(s, OthersPush(tip))
  {
    if tip.parents == [s.tip] {
      assert s.tip in tip.parents && Reaches(s.tip, s.tip);
    }
  }

  // ---- What becomes of a source whose tree is on the branch --------------------------------

  // The pacer has the source in hand and its view has the tree, or it has found it there.
  ghost predicate HoldsDuplicate(s: System, id: nat, source: Commit) {
    && id in s.pacers
    && var p := s.pacers[id];
       || (p.phase == Picked(source) && source.tree in Trees(p.view))
       || (p.phase.Skipping? && p.phase.source == source && NamesBranch(s.tip, p.phase.found, source.tree))
  }

  ghost predicate NamesBranch(tip: Commit, found: Option<Commit>, tree: Tree) {
    found.Some? && Reaches(tip, found.value) && found.value.tree == tree
  }

  /** Fetching is all it takes to hold a duplicate once the tree is on the branch. */
  lemma FetchHoldsDuplicate(s: System, id: nat, source: Commit, config: Config)
    requires id in s.pacers && s.pacers[id].phase == Picked(source) && source.tree in Trees(s.tip)
    ensures HoldsDuplicate(Apply(s, Fetch(id), config), id, source)
  {
  }

  lemma StepHoldsDuplicate(s: System, step: Step, config: Config, id: nat, source: Commit)
    requires Inv(s) && Enabled(s, step) && HoldsDuplicate(s, id, source)
    requires !(step.Crash? && step.id == id) && !(step.MarkDone? && step.id == id)
    ensures HoldsDuplicate(Apply(s, step, config), id, source)
  {
    hide Inv, PacerOk, Mark, Unprocessed;
    StepKeepsInv(s, step, config);
    var p, s' := s.pacers[id], Apply(s, step, config);
    if p.phase.Skipping? {
      ReachesIsTransitive(s'.tip, s.tip, p.phase.found.value);
    } else if step == Fetch(id) {
      ViewIsBehind(s, id);
      AncestorTrees(s.tip, p.view);
    } else if step.Check? && step.id == id {
      CheckSkips(s, id, step.now, config);
    }
  }

  lemma ViewIsBehind(s: System, id: nat)
    requires Inv(s) && id in s.pacers
    ensures Reaches(s.tip, s.pacers[id].view)
  {
  }

  // A pacer whose view has the tree goes on to skip, with a commit of the branch found.
  lemma CheckSkips(s: System, id: nat, now: int, config: Config)
    requires Inv(s) && Enabled(s, Check(id, now)) && s.pacers[id].phase.source.tree in Trees(s.pacers[id].view)
    ensures var source, p := s.pacers[id].phase.source, Apply(s, Check(id, now), config).pacers[id];
            p.phase.Skipping? && p.phase.source == source && NamesBranch(s.tip, p.phase.found, source.tree)
  {
    var p := s.pacers[id];
    FindByTreeIsExact(p.view, p.phase.source.tree);
    ReachesIsTransitive(s.tip, p.view, FindByTree(p.view, p.phase.source.tree).value);
  }

  lemma {:induction false} RunHoldsDuplicate(s: System, steps: seq<Step>, config: Config, id: nat, source: Commit)
    requires Inv(s) && CanRun(s, steps, config) && HoldsDuplicate(s, id, source)
    requires forall k | 0 <= k < |steps| ::
               !(steps[k].Crash? && steps[k].id == id) && !(steps[k].MarkDone? && steps[k].id == id)
    ensures Inv(Run(s, steps, config)) && HoldsDuplicate(Run(s, steps, config), id, source)
    decreases |steps|
  {
    hide Inv, HoldsDuplicate, Enabled, Apply;
    if steps != [] {
      StepKeepsInv(s, steps[0], config);
      StepHoldsDuplicate(s, steps[0], config, id, source);
      RunHoldsDuplicate(Apply(s, steps[0], config), steps[1..], config, id, source);
    }
  }

  lemma {:induction false} RunThen(s: System, steps: seq<Step>, step: Step, config: Config)
    requires CanRun(s, steps + [step], config)
    ensures CanRun(s, steps, config) && Enabled(Run(s, steps, config), step)
    ensures Run(s, steps + [step], config) == Apply(Run(s, steps, config), step, config)
    decreases |steps|
  {
    hide Enabled, Apply;
    if steps == [] {
      assert steps + [step] == [step] && [step][1..] == [];
    } else {
      assert (steps + [step])[1..] == steps[1..] + [step];
      RunThen(Apply(s, steps[0], config), steps[1..], step, config);
    }
  }

  /**
   * Over any interleaving: a pacer that holds a duplicate never pushes it. When it comes to mark,
   * it moves no branch and leaves the source recorded; if nobody recorded it before, as a duplicate
   * of a branch commit with its tree. Whatever row of the source there is then, a commit it names
   * is such a commit.
   */
  lemma DuplicateIsRecorded(s: System, steps: seq<Step>, config: Config, id: nat, now: int, source: Commit)
    requires Inv(s) && HoldsDuplicate(s, id, source) && CanRun(s, steps + [MarkDone(id, now)], config)
    requires forall k | 0 <= k < |steps| ::
               !(steps[k].Crash? && steps[k].id == id) && !(steps[k].MarkDone? && steps[k].id == id)
    ensures CanRun(s, steps, config)
    ensures var m, s' := Run(s, steps, config), Run(s, steps + [MarkDone(id, now)], config);
            && s'.tip == m.tip && s'.landed == m.landed && SourceProcessed(s'.store.history, source)
            && (!SourceProcessed(m.store.history, source) ==>
                  && |s'.store.history| == |m.store.history| + 1 && m.store.history <= s'.store.history
                  && var row := s'.store.history[|m.store.history|];
                     row.source == source && row.skippedDuplicate && NamesBranch(s'.tip, row.published, source.tree))
            && (forall i | 0 <= i < |s'.store.history| && s'.store.history[i].source == source ::
                  var row := s'.store.history[i];
                  row.published.Some? ==> NamesBranch(s'.tip, row.published, source.tree))
  {
    RunThen(s, steps, MarkDone(id, now), config);
    RunHoldsDuplicate(s, steps, config, id, source);
    var m := Run(s, steps, config);
    hide Run, CanRun;
    MarkRecordsDuplicate(m, id, now, config, source);
  }

  lemma MarkRecordsDuplicate(m: System, id: nat, now: int, config: Config, source: Commit)
    requires Inv(m) && HoldsDuplicate(m, id, source) && Enabled(m, MarkDone(id, now))
    ensures var s' := Apply(m, MarkDone(id, now), config);
            && s'.tip == m.tip && s'.landed == m.landed && SourceProcessed(s'.store.history, source)
            && (!SourceProcessed(m.store.history, source) ==>
                  && |s'.store.history| == |m.store.history| + 1 && m.store.history <= s'.store.history
                  && var row := s'.store.history[|m.store.history|];
                     row.source == source && row.skippedDuplicate && NamesBranch(s'.tip, row.published, source.tree))
            && (forall i | 0 <= i < |s'.store.history| && s'.store.history[i].source == source ::
                  var row := s'.store.history[i];
                  row.published.Some? ==> NamesBranch(s'.tip, row.published, source.tree))
  {
    MarkKeepsInv(m, id, now, config);
    var p := m.pacers[id];
    MarkRecords(m.store, Entry(source, p.phase.found, true, false), now, config.interval);
    var s' := Apply(m, MarkDone(id, now), config);
    assert forall i | 0 <= i < |s'.store.history| :: RowOk(s'.tip, s'.store.history[i]);
  }

  lemma RunCons(s: System, step: Step, rest: seq<Step>, config: Config)
    requires Enabled(s, step) && CanRun(Apply(s, step, config), rest, config)
    ensures CanRun(s, [step] + rest, config)
    ensures Run(s, [step] + rest, config) == Run(Apply(s, step, config), rest, config)
  {
    assert ([step] + rest)[1..] == rest;
  }

  /** What one idle pacer does with a front source whose tree is already on the branch. */
  lemma DuplicateIsSkipped(s: System, id: nat, now: int, config: Config) returns (s3: System)
    requires id in s.pacers && s.pacers[id].phase.Idle?
    requires var next := Unprocessed(s.store.history, s.tip, s.queue); next != [] && next[0].tree in Trees(s.tip)
    ensures var source := Unprocessed(s.store.history, s.tip, s.queue)[0];
            s3 == SetPacer(s, id, Pacer(s.tip, Skipping(source, FindByTree(s.tip, source.tree))))
    ensures forall rest :: CanRun(s3, rest, config) ==>
              CanRun(s, [Fetch(id)] + ([Pick(id)] + ([Check(id, now)] + rest)), config)
              && Run(s, [Fetch(id)] + ([Pick(id)] + ([Check(id, now)] + rest)), config) == Run(s3, rest, config)
  {
    hide Unprocessed, CanRun, Run;
    var source := Unprocessed(s.store.history, s.tip, s.queue)[0];
    FindByTreeIsExact(s.tip, source.tree);
    var s1 := Apply(s, Fetch(id), config);
    var s2 := Apply(s1, Pick(id), config);
    assert s2 == SetPacer(s, id, Pacer(s.tip, Picked(source)));
    s3 := Apply(s2, Check(id, now), config);
    forall rest | CanRun(s3, rest, config)
      ensures CanRun(s, [Fetch(id)] + ([Pick(id)] + ([Check(id, now)] + rest)), config)
      ensures Run(s, [Fetch(id)] + ([Pick(id)] + ([Check(id, now)] + rest)), config) == Run(s3, rest, config)
    {
      RunCons(s2, Check(id, now), rest, config);
      RunCons(s1, Pick(id), [Check(id, now)] + rest, config);
      RunCons(s, Fetch(id), [Pick(id)] + ([Check(id, now)] + rest), config);
    }
  }

  /**
   * A pacer that died between push and mark: any idle pacer that then fetches and finds the
   * source at the front of the queue records it as a duplicate of the commit that landed.
   */
  lemma CrashIsRecordedAsDuplicate(s: System, id: nat, now: int, config: Config)
    requires Inv(s) && id in s.pacers && s.pacers[id].phase.Idle?
    requires var next := Unprocessed(s.store.history, s.tip, s.queue); next != [] && next[0].tree in Trees(s.tip)
    ensures var steps := [Fetch(id)] + ([Pick(id)] + ([Check(id, now)] + [MarkDone(id, now)]));
            && CanRun(s, steps, config)
            && var source, s' := Unprocessed(s.store.history, s.tip, s.queue)[0], Run(s, steps, config);
               && s'.tip == s.tip && s'.landed == s.landed && id in s'.pacers && s'.pacers[id] == Pacer(s.tip, Idle)
               && |s'.store.history| == |s.store.history| + 1
               && var row := s'.store.history[|s.store.history|];
                  row.source == source && row.skippedDuplicate && row.published.Some?
                  && Reaches(s.tip, row.published.value) && row.published.value.tree == source.tree
  {
    hide Unprocessed, Inv;
    var i := FirstPending(s.store.history, s.tip, s.queue);
    var source := Unprocessed(s.store.history, s.tip, s.queue)[0];
    FindByTreeIsExact(s.tip, source.tree);
    var s3 := DuplicateIsSkipped(s, id, now, config);
    var s4, last := Apply(s3, MarkDone(id, now), config), [MarkDone(id, now)];
    assert last[1..] == [] && CanRun(s4, [], config) && Run(s4, [], config) == s4;
    assert CanRun(s3, last, config) && Run(s3, last, config) == s4;
  }

  // ---- What an undisturbed pacer does ------------------------------------------------------

  function CheckSteps(id: nat, now: int, rest: seq<Step>): seq<Step> {
    [Fetch(id)] + ([Pick(id)] + ([Check(id, now)] + rest))
  }

  // The front source of a pacer that has just fetched.
  predicate IsFront(s: System, source: Commit) {
    var next := Unprocessed(s.store.history, s.tip, s.queue);
    next != [] && next[0] == source
  }

  lemma FrontIsChecked(s: System, id: nat, now: int, config: Config, source: Commit, rest: seq<Step>)
    requires id in s.pacers && s.pacers[id].phase.Idle? && IsFront(s, source) && source.tree !in Trees(s.tip)
    requires var p := PacedPusher.Replay(s.tip, source, now, config.sanitize);
             var phase := if config.quality(source) then Built(source, p) else Skipping(source, None);
             CanRun(SetPacer(s, id, Pacer(s.tip, phase)), rest, config)
    ensures var p := PacedPusher.Replay(s.tip, source, now, config.sanitize);
            var phase := if config.quality(source) then Built(source, p) else Skipping(source, None);
            && CanRun(s, CheckSteps(id, now, rest), config)
            && Run(s, CheckSteps(id, now, rest), config) == Run(SetPacer(s, id, Pacer(s.tip, phase)), rest, config)
  {
    hide Unprocessed, CanRun, Run;
    FindByTreeIsExact(s.tip, source.tree);
    var i := FirstPending(s.store.history, s.tip, s.queue);
    var s1 := Apply(s, Fetch(id), config);
    var s2 := Apply(s1, Pick(id), config);
    assert s2 == SetPacer(s, id, Pacer(s.tip, Picked(source)));
    var p := PacedPusher.Replay(s.tip, source, now, config.sanitize);
    var phase := if config.quality(source) then Built(source, p) else Skipping(source, None);
    assert Checked(s2, s2.pacers[id], now, config) == phase;
    hide Pending, Checked;
    assert Apply(s2, Check(id, now), config) == SetPacer(s, id, Pacer(s.tip, phase));
    RunCons(s2, Check(id, now), rest, config);
    RunCons(s1, Pick(id), [Check(id, now)] + rest, config);
    RunCons(s, Fetch(id), [Pick(id)] + ([Check(id, now)] + rest), config);
  }

  lemma LandingSteps(s: System, id: nat, now: int, config: Config, source: Commit)
    requires id in s.pacers && IsFront(s, source)
    ensures var p := PacedPusher.Replay(s.tip, source, now, config.sanitize);
            var t, steps := SetPacer(s, id, Pacer(s.tip, Built(source, p))), [Push(id)] + ([MarkDone(id, now)] + []);
            && CanRun(t, steps, config)
            && var s' := Run(t, steps, config);
               && s'.tip == p && s'.landed == s.landed + [p] && s'.pacers == s.pacers[id := Pacer(p, Idle)]
               && s'.store.history == s.store.history + [HistoryRow(source, Some(p), source.tree, false, now)]
  {
    hide Unprocessed, CanRun, Run;
    var p := PacedPusher.Replay(s.tip, source, now, config.sanitize);
    var t := SetPacer(s, id, Pacer(s.tip, Built(source, p)));
    var i := FirstPending(s.store.history, s.tip, s.queue);
    assert s.tip in p.parents && Reaches(s.tip, s.tip);
    assert p != s.tip by {
      if p == s.tip { AncestorsAreLowerThanChild(p); }
    }
    var t1 := Apply(t, Push(id), config);
    var t2 := Apply(t1, MarkDone(id, now), config);
    Nothing(t2, config);
    RunCons(t1, MarkDone(id, now), [], config);
    RunCons(t, Push(id), [MarkDone(id, now)] + [], config);
  }

  // A commit is not its own parent.
  lemma AncestorsAreLowerThanChild(p: Commit)
    requires p.parents != []
    ensures p.parents[0] != p
  {
    assert p.parents[0] in p.parents;
    assert Height(p.parents[0]) <= MaxHeight(p.parents);
  }

  lemma Nothing(s: System, config: Config)
    ensures CanRun(s, [], config) && Run(s, [], config) == s
  {
  }

  /**
   * An idle pacer with a good source at the front and nobody in between lands it: one commit on
   * the tip, with the source's tree, author and cleaned message and the time of the push, and a row
   * that says so.
   */
  lemma GoodSourceLands(s: System, id: nat, now: int, config: Config, source: Commit)
    requires id in s.pacers && s.pacers[id].phase.Idle? && IsFront(s, source)
    requires source.tree !in Trees(s.tip) && config.quality(source)
    ensures var steps := CheckSteps(id, now, [Push(id)] + ([MarkDone(id, now)] + []));
            && CanRun(s, steps, config)
            && var s' := Run(s, steps, config);
               && s'.tip.parents == [s.tip] && s'.tip.tree == source.tree
               && s'.tip.meta.message == config.sanitize(source.meta.message)
               && s'.tip.meta.author == source.meta.author && s'.tip.meta.seconds == now / 1000
               && s'.tip.meta.committer == "hermes agent <hermeschain-agent@users.noreply.github.com>"
               && s'.landed == s.landed + [s'.tip]
               && s'.store.history == s.store.history + [HistoryRow(source, Some(s'.tip), source.tree, false, now)]
  {
    LandingSteps(s, id, now, config, source);
    hide CanRun, Run, IsFront;
    FrontIsChecked(s, id, now, config, source, [Push(id)] + ([MarkDone(id, now)] + []));
  }

  /** And a bad one of a new tree is recorded as skipped, and nothing is pushed. */
  lemma BadSourceIsSkipped(s: System, id: nat, now: int, config: Config, source: Commit)
    requires id in s.pacers && s.pacers[id].phase.Idle? && IsFront(s, source)
    requires source.tree !in Trees(s.tip) && !config.quality(source)
    ensures var steps := CheckSteps(id, now, [MarkDone(id, now)] + []);
            && CanRun(s, steps, config)
            && var s' := Run(s, steps, config);
               && s'.tip == s.tip && s'.landed == s.landed
               && s'.store.history == s.store.history + [HistoryRow(source, None, source.tree, true, now)]
  {
    var t := SetPacer(s, id, Pacer(s.tip, Skipping(source, None)));
    assert CanRun(t, [MarkDone(id, now)] + [], config) by {
      hide CanRun, Unprocessed;
      Nothing(Apply(t, MarkDone(id, now), config), config);
      RunCons(t, MarkDone(id, now), [], config);
    }
    hide CanRun, Unprocessed;
    Nothing(Apply(t, MarkDone(id, now), config), config);
    RunCons(t, MarkDone(id, now), [], config);
    FrontIsChecked(s, id, now, config, source, [MarkDone(id, now)] + []);
    var i := FirstPending(s.store.history, s.tip, s.queue);
  }
}
