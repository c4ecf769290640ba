/** Exactly when a tick pushes, as a condition on what it finds before it starts. */
module TickOutcome {
  import opened Options
  import opened GitHistory
  import opened PublishQueue
  import opened PacedPusher

  // How many commits are skipped before the first one to publish, if there is one. Of the pending
  // commits only the first of each tree is looked at; `used` are the trees looked at so far.
  function Skips(
      queue: seq<Commit>, history: seq<HistoryRow>, tip: Commit, used: set<Tree>, quality: Commit -> bool): Option<nat>
  {
    if queue == [] then None
    else if !Pending(history, tip, queue[0]) || queue[0].tree in used then
      Skips(queue[1..], history, tip, used, quality)
    else if IsGood(tip, queue[0], quality) then Some(0)
    else OneMore(Skips(queue[1..], history, tip, used + {queue[0].tree}, quality))
  }

  predicate IsGood(tip: Commit, c: Commit, quality: Commit -> bool) {
    FindByTree(tip, c.tree).None? && quality(c)
  }

  function OneMore(n: Option<nat>): Option<nat> {
    if n.Some? then Some(n.value + 1) else None
  }

  // A commit to publish comes before `used` skips have grown to the budget.
  predicate WithinBudget(skips: Option<nat>, used: nat, maxSkips: nat) {
    skips.Some? && (skips.value == 0 || used + skips.value < maxSkips)
  }

  lemma RowDecidesTree(history: seq<HistoryRow>, row: HistoryRow, tip: Commit, c: Commit)
    requires row.tree == row.source.tree
    ensures Pending(history + [row], tip, c) <==> Pending(history, tip, c) && c.tree != row.tree
  {
    var h := history + [row];
    assert forall i | 0 <= i < |history| :: h[i] == history[i];
    assert h[|history|] == row;
  }

  lemma {:induction false} RowIsUsedTree(
      queue: seq<Commit>, history: seq<HistoryRow>, row: HistoryRow, tip: Commit, used: set<Tree>,
      quality: Commit -> bool)
    requires row.tree == row.source.tree
    ensures Skips(queue, history + [row], tip, used, quality) == Skips(queue, history, tip, used + {row.tree}, quality)
  {
    hide Pending;
    if queue != [] {
      RowDecidesTree(history, row, tip, queue[0]);
      RowIsUsedTree(queue[1..], history, row, tip, used, quality);
      RowIsUsedTree(queue[1..], history, row, tip, used + {queue[0].tree}, quality);
      assert used + {queue[0].tree} + {row.tree} == used + {row.tree} + {queue[0].tree};
    }
  }

  /** The front pending commit is the one to publish, or the first of the skipped. */
  lemma {:induction false} FrontDecides(
      queue: seq<Commit>, history: seq<HistoryRow>, tip: Commit, quality: Commit -> bool)
    ensures var next := Unprocessed(history, tip, queue);
            Skips(queue, history, tip, {}, quality) ==
            if next == [] then None
            else if IsGood(tip, next[0], quality) then Some(0)
            else OneMore(Skips(queue, history, tip, {next[0].tree}, quality))
  {
    hide Pending, IsGood;
    if queue != [] {
      FrontDecides(queue[1..], history, tip, quality);
      assert {} + {queue[0].tree} == {queue[0].tree};
    }
  }

  lemma DecideUsesTree(w: World, c: Commit, now: int, inp: Input)
    requires Pending(w.store.history, w.tip, c) && !Judge(w, c, inp.quality).Published?
    ensures var w' := Decide(w, c, now, inp);
            && w'.tip == w.tip
            && Skips(inp.queue, w'.store.history, w'.tip, {}, inp.quality)
               == Skips(inp.queue, w.store.history, w.tip, {c.tree}, inp.quality)
  {
    hide Skips;
    var w' := Decide(w, c, now, inp);
    RowIsUsedTree(inp.queue, w.store.history, w'.store.history[|w.store.history|], w.tip, {}, inp.quality);
    assert {} + {c.tree} == {c.tree};
  }

  lemma {:induction false} DrainPushesExactly(w: World, inp: Input, dup: nat, qual: nat)
    ensures var r, skips := Drain(w, inp, dup, qual).1, Skips(inp.queue, w.store.history, w.tip, {}, inp.quality);
            && (r.pushed <==> inp.accepted && WithinBudget(skips, dup + qual, inp.maxSkips))
            && (r.threw <==> !inp.accepted && WithinBudget(skips, dup + qual, inp.maxSkips))
    decreases |Unprocessed(w.store.history, w.tip, inp.queue)|
  {
    hide Skips, Unprocessed, Decide, Pending;
    FrontDecides(inp.queue, w.store.history, w.tip, inp.quality);
    var next := Unprocessed(w.store.history, w.tip, inp.queue);
    if next != [] {
      var now := inp.clock(dup + qual);
      var first := FirstPending(w.store.history, w.tip, inp.queue);
      DecideMakesProgress(w, now, inp);
      var verdict := Judge(w, next[0], inp.quality);
      PendingIsJudged(w, next[0], inp.quality);
      if !verdict.Published? {
        DecideUsesTree(w, next[0], now, inp);
        if dup + qual + 1 < inp.maxSkips {
          DrainPushesExactly(Decide(w, next[0], now, inp), inp, dup + if verdict.Duplicate? then 1 else 0,
                             qual + if verdict.LowQuality? then 1 else 0);
        }
      }
    }
  }

  lemma PendingIsJudged(w: World, c: Commit, quality: Commit -> bool)
    requires Pending(w.store.history, w.tip, c)
    ensures Judge(w, c, quality).Published? <==> IsGood(w.tip, c, quality)
  {
  }

  /**
   * A tick pushes if and only if publishing is enabled, the worker is the leader, the cursor's next
   * time is not after the gate's clock (or unknown, the status refresh having failed), a commit to
   * publish comes within the skip budget, and the remote accepts it; it ends in an exception when
   * only the last is missing.
   */
  lemma TickPushesExactly(w: World, inp: Input)
    ensures var r, skips := Tick(w, inp).1, Skips(inp.queue, w.store.history, w.tip, {}, inp.quality);
            var open := && inp.enabled && inp.leader
                        && (!inp.refreshed || IsDue(w.store, inp.gateTime))
                        && WithinBudget(skips, 0, inp.maxSkips);
            && (r.pushed <==> open && inp.accepted)
            && (r.threw <==> open && !inp.accepted)
  {
    hide Skips;
    DrainPushesExactly(w, inp, 0, 0);
  }

  /** Behind a shut gate nothing at all happens. */
  lemma ShutGateDoesNothing(w: World, inp: Input)
    requires !inp.enabled || !inp.leader || (inp.refreshed && !IsDue(w.store, inp.gateTime))
    ensures Tick(w, inp) == (w, NOTHING)
  {
  }

  // There is no next time yet, or it has come.
  predicate IsDue(s: State, now: int) {
    match s.cursor
    case None => true
    case Some(cursor) => cursor.nextPublishAt <= now
  }
}
