/** When pushes happen: how far apart, and what breaks that. */
module Pacing {
  import opened Options
  import opened GitHistory
  import opened PublishQueue
  import opened PacedPusher
  import opened TickOutcome

  // The recorded times of real pushes, oldest first.
  function PushTimes(history: seq<HistoryRow>): seq<int> {
    if history == [] then []
    else
      var n := |history| - 1;
      PushTimes(history[..n]) + if history[n].skippedDuplicate then [] else [history[n].publishedAt]
  }

  ghost predicate Spaced(times: seq<int>, interval: int) {
    forall i | 0 < i < |times| :: times[i - 1] + interval <= times[i]
  }

  // Pushes are spaced, and the cursor points one interval past the last of them.
  ghost predicate Paced(s: State, interval: int) {
    var times := PushTimes(s.history);
    && Spaced(times, interval)
    && (times != [] ==> s.cursor.Some? && s.cursor.value.nextPublishAt == times[|times| - 1] + interval)
  }

  ghost predicate ClockRuns(inp: Input) {
    && (forall i: nat :: inp.gateTime <= inp.clock(i))
    && (forall i: nat, j: nat | i <= j :: inp.clock(i) <= inp.clock(j))
  }

  lemma PushTimesGrow(history: seq<HistoryRow>, row: HistoryRow)
    ensures PushTimes(history + [row]) ==
            PushTimes(history) + if row.skippedDuplicate then [] else [row.publishedAt]
  {
    assert (history + [row])[..|history|] == history;
  }

  lemma SpacedGrows(times: seq<int>, now: int, interval: int)
    requires Spaced(times, interval)
    ensures Spaced(times + [now], interval) <==> times == [] || times[|times| - 1] + interval <= now
  {
    var longer := times + [now];
    if times != [] && Spaced(longer, interval) {
      assert longer[|times| - 1] + interval <= longer[|times|];
    }
  }

  /** Marking a skip keeps the schedule; marking a push keeps the pace exactly when it was due. */
  lemma MarkKeepsPace(s: State, e: Entry, now: int, interval: int)
    requires Paced(s, interval) && !SourceProcessed(s.history, e.source)
    requires e.skippedDuplicate == !e.advanceSchedule
    ensures var s' := Mark(s, e, now, interval);
            && (!e.advanceSchedule ==> Paced(s', interval) && (s.cursor.Some? ==>
                  s'.cursor.value.nextPublishAt == s.cursor.value.nextPublishAt))
            && (e.advanceSchedule && PushTimes(s.history) != [] ==> (Paced(s', interval) <==> IsDue(s, now)))
            && (e.advanceSchedule && PushTimes(s.history) == [] ==> Paced(s', interval))
            && s'.cursor.Some?
  {
    hide Spaced, SourceProcessed;
    PushTimesGrow(s.history, HistoryRow(e.source, e.published, e.source.tree, e.skippedDuplicate, now));
    hide PushTimes;
    SpacedGrows(PushTimes(s.history), now, interval);
    assert PushTimes(s.history) + [] == PushTimes(s.history);
  }

  ghost predicate ScheduleAdvances(s: State, s': State) {
    s.cursor.Some? ==> s'.cursor.Some? && s.cursor.value.nextPublishAt <= s'.cursor.value.nextPublishAt
  }

  lemma DueDecisionKeepsPace(w: World, c: Commit, now: int, inp: Input)
    requires Paced(w.store, inp.interval) && !SourceProcessed(w.store.history, c)
    requires IsDue(w.store, now) && 0 <= inp.interval
    ensures var s' := Decide(w, c, now, inp).store;
            && Paced(s', inp.interval) && ScheduleAdvances(w.store, s')
            && (!Judge(w, c, inp.quality).Published? ==> forall t | now <= t :: IsDue(s', t))
  {
    hide Judge, Spaced;
    MarkKeepsPace(w.store, EntryFor(w, c, now, inp), now, inp.interval);
  }

  lemma ScheduleKeepsAdvancing(a: State, b: State, c: State)
    requires ScheduleAdvances(a, b) && ScheduleAdvances(b, c)
    ensures ScheduleAdvances(a, c)
  {
  }

  lemma {:induction false} DrainKeepsPace(w: World, inp: Input, dup: nat, qual: nat)
    requires Paced(w.store, inp.interval) && ClockRuns(inp) && 0 <= inp.interval
    requires IsDue(w.store, inp.clock(dup + qual))
    ensures var s' := Drain(w, inp, dup, qual).0.store; Paced(s', inp.interval) && ScheduleAdvances(w.store, s')
    decreases |Unprocessed(w.store.history, w.tip, inp.queue)|
  {
    hide Unprocessed, Judge, Decide, Paced, IsDue;
    var next := Unprocessed(w.store.history, w.tip, inp.queue);
    if next != [] {
      var now := inp.clock(dup + qual);
      var first := FirstPending(w.store.history, w.tip, inp.queue);
      DecideMakesProgress(w, now, inp);
      DueDecisionKeepsPace(w, next[0], now, inp);
      hide Pending, ScheduleAdvances;
      var mid, verdict := Decide(w, next[0], now, inp), Judge(w, next[0], inp.quality);
      var dup' := dup + if verdict.Duplicate? then 1 else 0;
      var qual' := qual + if verdict.LowQuality? then 1 else 0;
      if !verdict.Published? && dup' + qual' < inp.maxSkips {
        assert now <= inp.clock(dup' + qual');
        DrainKeepsPace(mid, inp, dup', qual');
        ScheduleKeepsAdvancing(w.store, mid.store, Drain(mid, inp, dup', qual').0.store);
      } else {
        ScheduleStands(w.store);
      }
    }
  }

  lemma ScheduleStands(s: State)
    ensures ScheduleAdvances(s, s)
  {
  }

  /**
   * With successful status refreshes and clocks that run forward within each tick, pushes stay an
   * interval apart and the schedule never moves back, however many skips fall between.
   */
  lemma {:induction false} RefreshedTicksArePaced(w: World, inputs: seq<Input>, interval: nat)
    requires Paced(w.store, interval)
    requires forall k | 0 <= k < |inputs| ::
               inputs[k].refreshed && inputs[k].interval == interval && ClockRuns(inputs[k])
    ensures var s' := Ticks(w, inputs).store; Paced(s', interval) && ScheduleAdvances(w.store, s')
    decreases |inputs|
  {
    hide Drain, Paced;
    if inputs != [] {
      if Admitted(w, inputs[0]) {
        assert inputs[0].gateTime <= inputs[0].clock(0);
        DrainKeepsPace(w, inputs[0], 0, 0);
      }
      RefreshedTicksArePaced(Tick(w, inputs[0]).0, inputs[1..], interval);
    }
  }

  /** Any k pushes of a paced history span at least k - 1 intervals. */
  lemma {:induction false} PushesSpanIntervals(times: seq<int>, interval: nat, i: nat, j: nat)
    requires Spaced(times, interval) && i <= j < |times|
    ensures times[i] + (j - i) * interval <= times[j]
  {
    if i < j {
      PushesSpanIntervals(times, interval, i, j - 1);
      assert (j - i) * interval == (j - 1 - i) * interval + interval;
    }
  }

  // A push now would come before the pace allows one.
  ghost predicate TooEarly(s: State, now: int) {
    PushTimes(s.history) != [] && !IsDue(s, now)
  }

  lemma DecisionKeepsPace(w: World, c: Commit, now: int, inp: Input)
    requires Paced(w.store, inp.interval) && !SourceProcessed(w.store.history, c)
    ensures var s' := Decide(w, c, now, inp).store;
            if Judge(w, c, inp.quality).Published? then Paced(s', inp.interval) <==> !TooEarly(w.store, now)
            else Paced(s', inp.interval) && forall t :: TooEarly(s', t) <==> TooEarly(w.store, t)
  {
    hide Judge, Spaced;
    var e := EntryFor(w, c, now, inp);
    MarkKeepsPace(w.store, e, now, inp.interval);
    PushTimesGrow(w.store.history, Mark(w.store, e, now, inp.interval).history[|w.store.history|]);
  }

  lemma {:induction false} DrainBreaksPace(w: World, inp: Input, dup: nat, qual: nat)
    requires Paced(w.store, inp.interval)
    ensures var skips := Skips(inp.queue, w.store.history, w.tip, {}, inp.quality);
            !Paced(Drain(w, inp, dup, qual).0.store, inp.interval) <==>
            && inp.accepted && WithinBudget(skips, dup + qual, inp.maxSkips)
            && TooEarly(w.store, inp.clock(dup + qual + skips.value))
    decreases |Unprocessed(w.store.history, w.tip, inp.queue)|
  {
    hide Skips, Unprocessed, Judge, Decide, Paced, TooEarly, IsGood;
    FrontDecides(inp.queue, w.store.history, w.tip, inp.quality);
    var next := Unprocessed(w.store.history, w.tip, inp.queue);
    if next != [] {
      var now := inp.clock(dup + qual);
      var first := FirstPending(w.store.history, w.tip, inp.queue);
      DecideMakesProgress(w, now, inp);
      DecisionKeepsPace(w, next[0], now, inp);
      PendingIsJudged(w, next[0], inp.quality);
      var verdict := Judge(w, next[0], inp.quality);
      if !verdict.Published? {
        DecideUsesTree(w, next[0], now, inp);
        if dup + qual + 1 < inp.maxSkips {
          DrainBreaksPace(Decide(w, next[0], now, inp), inp, dup + if verdict.Duplicate? then 1 else 0,
                          qual + if verdict.LowQuality? then 1 else 0);
        }
      }
    }
  }

  /**
   * The exact condition, for every tick: it breaks the pace if and only if an enabled leader's gate
   * is open, a commit to publish comes within the skip budget, the remote accepts it, and the clock
   * then reads a time before the next push is due.
   */
  lemma TickBreaksPaceExactly(w: World, inp: Input)
    requires Paced(w.store, inp.interval)
    ensures var skips := Skips(inp.queue, w.store.history, w.tip, {}, inp.quality);
            !Paced(Tick(w, inp).0.store, inp.interval) <==>
            && inp.enabled && inp.leader && (!inp.refreshed || IsDue(w.store, inp.gateTime))
            && inp.accepted && WithinBudget(skips, 0, inp.maxSkips)
            && TooEarly(w.store, inp.clock(skips.value))
  {
    hide Skips, Paced, TooEarly;
    DrainBreaksPace(w, inp, 0, 0);
  }

  /** For a tick all before the due time, that takes a failed status refresh on an enabled leader. */
  lemma EarlyTickBreaksPace(w: World, inp: Input)
    requires Paced(w.store, inp.interval) && PushTimes(w.store.history) != []
    requires inp.gateTime < w.store.cursor.value.nextPublishAt
    requires forall i: nat :: inp.clock(i) < w.store.cursor.value.nextPublishAt
    ensures var skips := Skips(inp.queue, w.store.history, w.tip, {}, inp.quality);
            !Paced(Tick(w, inp).0.store, inp.interval) <==>
            inp.enabled && inp.leader && !inp.refreshed && inp.accepted && WithinBudget(skips, 0, inp.maxSkips)
  {
    assert forall i: nat :: TooEarly(w.store, inp.clock(i));
    hide Skips, Paced, TooEarly;
    TickBreaksPaceExactly(w, inp);
  }

  // ---- Such ticks occur --------------------------------------------------------------------

  function Single(tree: Tree): Commit {
    Commit([], tree, Meta("", "", "", 0))
  }

  // An open gate and two good commits waiting; only the status refresh is as given.
  function Ready(b: Tree, c: Tree, refreshed: bool): Input {
    Input(true, true, refreshed, [Single(b), Single(c)], 0, (i: nat) => 0, 1, 1, true,
          (c: Commit) => true, (m: string) => m)
  }

  lemma FirstTickPushes(a: Tree, b: Tree, c: Tree)
    requires a != b
    ensures var w, inp := World(State([], None), Single(a)), Ready(b, c, true);
            var p := Replay(Single(a), Single(b), 0, inp.sanitize);
            Tick(w, inp).0
            == World(State([HistoryRow(Single(b), Some(p), b, false, 0)], Some(Cursor(Single(b), Some(p), 1, 0))), p)
  {
    var w, inp := World(State([], None), Single(a)), Ready(b, c, true);
    assert Pending([], w.tip, Single(b));
    assert Unprocessed([], w.tip, inp.queue)[0] == Single(b);
    assert FindByTree(w.tip, b).None?;
  }

  lemma {:induction false} SecondIsToPublish(a: Tree, b: Tree, c: Tree, w: World)
    requires a != c && b != c
    requires w.tip.parents == [Single(a)] && w.tip.tree == b
    requires |w.store.history| == 1 && w.store.history[0].source == Single(b) && w.store.history[0].tree == b
    ensures var inp := Ready(b, c, false); Skips(inp.queue, w.store.history, w.tip, {}, inp.quality) == Some(0)
  {
    var h, inp := w.store.history, Ready(b, c, false);
    assert !Pending(h, w.tip, Single(b)) by { assert h[0].source == Single(b); }
    assert Pending(h, w.tip, Single(c)) by {
      assert Single(c).tree != Single(b).tree;
      assert !SourceProcessed(h, Single(c));
      assert !TreeProcessed(h, c);
      assert !Reaches(Single(a), Single(c));
    }
    assert FindByTree(Single(a), c) == FindAmong([], c) == None;
    assert FindAmong([Single(a)], c) == FindAmong([Single(a)][1..], c) && [Single(a)][1..] == [];
    assert inp.queue[1..] == [Single(c)];
  }

  /**
   * Two ticks from an empty store, with good commits waiting and all clocks at one time: with the
   * second refresh failing both push within one interval, with it succeeding the second does not.
   */
  lemma FailedRefreshBreaksPace(a: Tree, b: Tree, c: Tree, refreshed: bool)
    requires a != b && a != c && b != c
    ensures var w := World(State([], None), Single(a));
            Paced(w.store, 1)
            && (Paced(Ticks(w, [Ready(b, c, true), Ready(b, c, refreshed)]).store, 1) <==> refreshed)
  {
    var w := World(State([], None), Single(a));
    var w1, inp := Tick(w, Ready(b, c, true)).0, Ready(b, c, refreshed);
    hide Skips, Tick, Drain, Pending, Reaches;
    FirstTickPushes(a, b, c);
    SecondIsToPublish(a, b, c, w1);
    assert PushTimes(w1.store.history) == [0] by { PushTimesGrow([], w1.store.history[0]); }
    EarlyTickBreaksPace(w1, inp);
    TwoTicks(w, Ready(b, c, true), inp);
  }

  lemma TwoTicks(w: World, first: Input, second: Input)
    ensures Ticks(w, [first, second]) == Tick(Tick(w, first).0, second).0
  {
    hide Tick;
    var w1 := Tick(w, first).0;
    assert [first, second][1..] == [second] && [second][1..] == [];
    assert Ticks(w1, [second]) == Ticks(Tick(w1, second).0, []);
  }
}
