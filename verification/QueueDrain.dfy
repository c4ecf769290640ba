/**
 * What draining the queue means: one pass that keeps the first good commit of every unseen tree.
 * Ticks follow that pass whatever their gates, clocks and skip budgets.
 */
module QueueDrain {
  import opened Options
  import opened GitHistory
  import opened PublishQueue
  import opened PacedPusher
  import opened TickOutcome

  ghost function HistoryTrees(history: seq<HistoryRow>): set<Tree> {
    set row | row in history :: row.tree
  }

  ghost function Seen(w: World): set<Tree> {
    HistoryTrees(w.store.history) + Trees(w.tip)
  }

  // One pass over the queue: the first commit of every unseen tree, if it is good. A rejected
  // commit uses up its tree all the same.
  ghost function FirstGood(queue: seq<Commit>, seen: set<Tree>, quality: Commit -> bool): seq<Commit> {
    if queue == [] then []
    else if queue[0].tree in seen then FirstGood(queue[1..], seen, quality)
    else (if quality(queue[0]) then [queue[0]] else []) + FirstGood(queue[1..], seen + {queue[0].tree}, quality)
  }

  // `c` is kept: good, of an unseen tree, and the first of its tree in the queue.
  ghost predicate Kept(queue: seq<Commit>, seen: set<Tree>, quality: Commit -> bool, c: Commit) {
    && quality(c)
    && c.tree !in seen
    && exists i | 0 <= i < |queue| :: queue[i] == c && forall j | 0 <= j < i :: queue[j].tree != c.tree
  }

  /** The one pass keeps exactly the commits it should. */
  lemma {:induction false} FirstGoodIsExact(queue: seq<Commit>, seen: set<Tree>, quality: Commit -> bool, c: Commit)
    ensures c in FirstGood(queue, seen, quality) <==> Kept(queue, seen, quality, c)
  {
    if queue != [] {
      var q, rest := queue[0], queue[1..];
      FirstGoodIsExact(rest, seen, quality, c);
      FirstGoodIsExact(rest, seen + {q.tree}, quality, c);
      if c.tree != q.tree {
        KeptLater(queue, seen, quality, c);
      } else if q == c {
        assert queue[0] == c;
      }
    }
  }

  lemma KeptLater(queue: seq<Commit>, seen: set<Tree>, quality: Commit -> bool, c: Commit)
    requires queue != [] && queue[0].tree != c.tree
    ensures Kept(queue, seen, quality, c) <==> Kept(queue[1..], seen, quality, c)
  {
    var rest := queue[1..];
    if Kept(rest, seen, quality, c) {
      var i :| 0 <= i < |rest| && rest[i] == c && forall j | 0 <= j < i :: rest[j].tree != c.tree;
      assert queue[i + 1] == c && forall j | 0 < j < i + 1 :: queue[j] == rest[j - 1];
    }
    if Kept(queue, seen, quality, c) {
      var i :| 0 <= i < |queue| && queue[i] == c && forall j | 0 <= j < i :: queue[j].tree != c.tree;
      assert rest[i - 1] == c && forall j | 0 <= j < i - 1 :: rest[j] == queue[j + 1];
    }
  }

  ghost predicate FreshAndDistinct(kept: seq<Commit>, seen: set<Tree>) {
    && (forall i | 0 <= i < |kept| :: kept[i].tree !in seen)
    && (forall i, j | 0 <= i < j < |kept| :: kept[i].tree != kept[j].tree)
  }

  /** It keeps no seen tree and every other tree at most once. */
  lemma {:induction false} FirstGoodIsDistinct(queue: seq<Commit>, seen: set<Tree>, quality: Commit -> bool)
    ensures FreshAndDistinct(FirstGood(queue, seen, quality), seen)
  {
    if queue != [] {
      var q := queue[0];
      if q.tree in seen {
        FirstGoodIsDistinct(queue[1..], seen, quality);
      } else {
        FirstGoodIsDistinct(queue[1..], seen + {q.tree}, quality);
        var tail := FirstGood(queue[1..], seen + {q.tree}, quality);
        assert forall i | 0 <= i < |tail| :: tail[i].tree !in seen + {q.tree};
      }
    }
  }

  // `tip` is `base` with `sources` replayed on top, in order, one parent each.
  ghost predicate IsReplay(base: Commit, tip: Commit, sources: seq<Commit>, sanitize: string -> string)
    decreases |sources|
  {
    if sources == [] then tip == base
    else
      var s := sources[|sources| - 1];
      |tip.parents| == 1
      && tip == Commit(tip.parents, s.tree, Meta(sanitize(s.meta.message), s.meta.author, COMMITTER, tip.meta.seconds))
      && IsReplay(base, tip.parents[0], sources[..|sources| - 1], sanitize)
  }

  lemma {:induction false} SkipsSeen(queue: seq<Commit>, i: nat, seen: set<Tree>, quality: Commit -> bool)
    requires i <= |queue| && forall k | 0 <= k < i :: queue[k].tree in seen
    ensures FirstGood(queue, seen, quality) == FirstGood(queue[i..], seen, quality)
  {
    if i == 0 {
      assert queue[0..] == queue;
    } else {
      assert queue[1..][i - 1..] == queue[i..];
      SkipsSeen(queue[1..], i - 1, seen, quality);
    }
  }

  lemma DecidedIsSeen(w: World, c: Commit)
    requires RowsMatchTrees(w.store.history) && !Pending(w.store.history, w.tip, c)
    ensures c.tree in Seen(w)
  {
    if Reaches(w.tip, c) {
      AncestorTrees(w.tip, c);
    } else {
      var i :| 0 <= i < |w.store.history|
               && (w.store.history[i].source == c || w.store.history[i].tree == c.tree);
      assert w.store.history[i] in w.store.history;
    }
  }

  /** How deciding the first pending commit moves the one-pass result, for any longer queue. */
  lemma DecideFirst(w: World, w': World, queue: seq<Commit>, all: seq<Commit>, quality: Commit -> bool)
    requires RowsMatchTrees(w.store.history) && queue <= all
    requires var next := Unprocessed(w.store.history, w.tip, queue);
             next != [] && Seen(w') == Seen(w) + {next[0].tree}
    ensures var c := Unprocessed(w.store.history, w.tip, queue)[0];
            FirstGood(all, Seen(w), quality) ==
            (if c.tree !in Seen(w) && quality(c) then [c] else []) + FirstGood(all, Seen(w'), quality)
  {
    var i := FirstPending(w.store.history, w.tip, queue);
    forall k | 0 <= k < i ensures all[k].tree in Seen(w) {
      DecidedIsSeen(w, all[k]);
    }
    hide Unprocessed, Pending, Seen;
    SkipsSeen(all, i, Seen(w), quality);
    SkipsSeen(all, i + 1, Seen(w'), quality);
    assert all[i..][1..] == all[i + 1..];
    if all[i].tree in Seen(w) {
      assert Seen(w') == Seen(w);
    }
  }

  ghost predicate FollowsOnePass(w: World, w': World, published: seq<Commit>, all: seq<Commit>, inp: Input) {
    && RowsMatchTrees(w'.store.history)
    && IsReplay(w.tip, w'.tip, published, inp.sanitize)
    && FirstGood(all, Seen(w), inp.quality) == published + FirstGood(all, Seen(w'), inp.quality)
  }

  lemma DecideExtendsSeen(w: World, c: Commit, now: int, inp: Input)
    requires RowsMatchTrees(w.store.history) && Pending(w.store.history, w.tip, c)
    ensures var w' := Decide(w, c, now, inp);
            && RowsMatchTrees(w'.store.history)
            && Seen(w') == Seen(w) + {c.tree}
            && (Judge(w, c, inp.quality).Duplicate? <==> c.tree in Seen(w))
  {
    FindByTreeIsExact(w.tip, c.tree);
    MarkRecords(w.store, EntryFor(w, c, now, inp), now, inp.interval);
    HistoryTreesGrow(w.store.history, Decide(w, c, now, inp).store.history[|w.store.history|]);
  }

  lemma DecideFollowsOnePass(w: World, now: int, inp: Input, all: seq<Commit>)
    requires RowsMatchTrees(w.store.history) && inp.queue <= all
    requires Unprocessed(w.store.history, w.tip, inp.queue) != []
    ensures var c := Unprocessed(w.store.history, w.tip, inp.queue)[0];
            FollowsOnePass(w, Decide(w, c, now, inp),
                           if Judge(w, c, inp.quality).Published? then [c] else [], all, inp)
  {
    hide Unprocessed, Pending, Seen, FirstGood, Mark;
    var c := Unprocessed(w.store.history, w.tip, inp.queue)[0];
    var i := FirstPending(w.store.history, w.tip, inp.queue);
    DecideExtendsSeen(w, c, now, inp);
    DecideFirst(w, Decide(w, c, now, inp), inp.queue, all, inp.quality);
    assert [c][..0] == [];
    var w' := Decide(w, c, now, inp);
    var published := if Judge(w, c, inp.quality).Published? then [c] else [];
    assert IsReplay(w.tip, w'.tip, published, inp.sanitize);
    assert FirstGood(all, Seen(w), inp.quality) == published + FirstGood(all, Seen(w'), inp.quality);
  }

  lemma JoinFollowsOnePass(w: World, mid: World, w': World, published: seq<Commit>, all: seq<Commit>, inp: Input)
    requires FollowsOnePass(w, mid, [], all, inp) && FollowsOnePass(mid, w', published, all, inp)
    ensures FollowsOnePass(w, w', published, all, inp)
  {
  }

  // What one drain owes: at most one commit published, and always the next one of the one pass.
  ghost predicate DrainIsSound(w: World, after: (World, Result), all: seq<Commit>, inp: Input) {
    && (after.1.pushed ==> after.1.source.Some? && after.1.published == Some(after.0.tip))
    && FollowsOnePass(w, after.0, PublishedBy(after.1), all, inp)
  }

  lemma {:induction false} DrainFollowsOnePass(w: World, inp: Input, dup: nat, qual: nat, all: seq<Commit>)
    requires RowsMatchTrees(w.store.history) && inp.queue <= all
    ensures DrainIsSound(w, Drain(w, inp, dup, qual), all, inp)
    decreases |Unprocessed(w.store.history, w.tip, inp.queue)|
  {
    hide FirstGood, Seen, IsReplay, Decide, Judge, Unprocessed;
    var next := Unprocessed(w.store.history, w.tip, inp.queue);
    if next == [] {
      NothingPublished(w, all, inp);
    } else {
      var now := inp.clock(dup + qual);
      DecideFollowsOnePass(w, now, inp, all);
      DecideMakesProgress(w, now, inp);
      NothingPublished(w, all, inp);
      var mid := Decide(w, next[0], now, inp);
      var verdict := Judge(w, next[0], inp.quality);
      var dup' := dup + if verdict.Duplicate? then 1 else 0;
      var qual' := qual + if verdict.LowQuality? then 1 else 0;
      if !verdict.Published? && dup' + qual' < inp.maxSkips {
        DrainFollowsOnePass(mid, inp, dup', qual', all);
        var after := Drain(mid, inp, dup', qual');
        JoinFollowsOnePass(w, mid, after.0, PublishedBy(after.1), all, inp);
      }
    }
  }

  lemma NothingPublished(w: World, all: seq<Commit>, inp: Input)
    requires RowsMatchTrees(w.store.history)
    ensures FollowsOnePass(w, w, [], all, inp)
  {
  }

  function PublishedBy(r: Result): seq<Commit> {
    if r.pushed && r.source.Some? then [r.source.value] else []
  }

  /** Unless a push fails, a drain shrinks a non-empty queue, and names no source only when nothing is left. */
  lemma {:induction false} DrainMakesProgress(w: World, inp: Input, dup: nat, qual: nat)
    ensures var (w', r) := Drain(w, inp, dup, qual);
            var before, after := Unprocessed(w.store.history, w.tip, inp.queue),
                                 Unprocessed(w'.store.history, w'.tip, inp.queue);
            |after| <= |before|
            && (r.threw ==> !inp.accepted)
            && (!r.threw ==> (before != [] ==> |after| < |before|) && (r.source.None? ==> after == []))
    decreases |Unprocessed(w.store.history, w.tip, inp.queue)|
  {
    hide Unprocessed, Judge, Decide;
    var next := Unprocessed(w.store.history, w.tip, inp.queue);
    if next != [] {
      var now := inp.clock(dup + qual);
      DecideMakesProgress(w, now, inp);
      var verdict := Judge(w, next[0], inp.quality);
      if !verdict.Published? && dup + qual + 1 < inp.maxSkips {
        DrainMakesProgress(Decide(w, next[0], now, inp), inp, dup + if verdict.Duplicate? then 1 else 0,
                           qual + if verdict.LowQuality? then 1 else 0);
      }
    }
  }

  lemma HistoryTreesGrow(history: seq<HistoryRow>, row: HistoryRow)
    ensures HistoryTrees(history + [row]) == HistoryTrees(history) + {row.tree}
  {
    assert row in history + [row];
  }

  // Ticks of one deployment: a queue that only grows towards `all`, one gate, one sanitizer.
  ghost predicate SameDeployment(inputs: seq<Input>, all: seq<Commit>, base: Input) {
    forall k | 0 <= k < |inputs| ::
      inputs[k].queue <= all && inputs[k].quality == base.quality && inputs[k].sanitize == base.sanitize
  }

  lemma {:induction false} ReplaysCompose(
      a: Commit, b: Commit, c: Commit, first: seq<Commit>, second: seq<Commit>, sanitize: string -> string)
    requires IsReplay(a, b, first, sanitize) && IsReplay(b, c, second, sanitize)
    ensures IsReplay(a, c, first + second, sanitize)
    decreases |second|
  {
    if second == [] {
      assert first + second == first;
    } else {
      var n := |second| - 1;
      ReplaysCompose(a, b, c.parents[0], first, second[..n], sanitize);
      assert (first + second)[..|first| + n] == first + second[..n];
    }
  }

  /**
   * Conservation over any number of ticks, whatever the gates, clocks, refresh outcomes and skip
   * budgets: what was published so far, followed by the one pass over what is left, is the one
   * pass over everything. The branch grew by exactly that published part, in order.
   */
  lemma {:induction false} TicksFollowOnePass(w: World, inputs: seq<Input>, all: seq<Commit>, base: Input)
      returns (published: seq<Commit>)
    requires RowsMatchTrees(w.store.history) && SameDeployment(inputs, all, base)
    ensures FollowsOnePass(w, Ticks(w, inputs), published, all, base)
    decreases |inputs|
  {
    hide FirstGood, Seen, Unprocessed, Drain;
    published := [];
    if inputs != [] {
      var inp, after := inputs[0], Tick(w, inputs[0]);
      if Admitted(w, inp) {
        DrainFollowsOnePass(w, inp, 0, 0, all);
        published := PublishedBy(after.1);
      }
      var later := TicksFollowOnePass(after.0, inputs[1..], all, base);
      var w' := Ticks(w, inputs);
      ReplaysCompose(w.tip, after.0.tip, w'.tip, published, later, base.sanitize);
      var left := FirstGood(all, Seen(w'), base.quality);
      assert published + (later + left) == (published + later) + left;
      published := published + later;
    }
  }

  /** Once nothing is pending, the branch has gained exactly the one pass, in queue order. */
  lemma DrainedIsOnePass(w: World, inputs: seq<Input>, all: seq<Commit>, base: Input)
    requires RowsMatchTrees(w.store.history) && SameDeployment(inputs, all, base)
    requires var w' := Ticks(w, inputs); Unprocessed(w'.store.history, w'.tip, all) == []
    ensures IsReplay(w.tip, Ticks(w, inputs).tip, FirstGood(all, Seen(w), base.quality), base.sanitize)
  {
    var published := TicksFollowOnePass(w, inputs, all, base);
    var w' := Ticks(w, inputs);
    NothingPending(w'.store.history, w'.tip, all);
    forall k | 0 <= k < |all| ensures all[k].tree in Seen(w') {
      DecidedIsSeen(w', all[k]);
    }
    SkipsSeen(all, |all|, Seen(w'), base.quality);
    assert published + [] == published;
  }

  // The cursor's last published commit is what the branch has for the tree of the last source.
  ghost predicate CursorMatchesBranch(w: World) {
    w.store.cursor.Some? ==>
      var cursor := w.store.cursor.value;
      && SourceProcessed(w.store.history, cursor.lastSource)
      && cursor.lastPublished == FindByTree(w.tip, cursor.lastSource.tree)
  }

  lemma DecideMatchesBranch(w: World, c: Commit, now: int, inp: Input)
    ensures var w' := Decide(w, c, now, inp);
            CursorMatchesBranch(w') && w'.store.cursor.Some? && w'.store.cursor.value.lastSource == c
  {
    MarkRecords(w.store, EntryFor(w, c, now, inp), now, inp.interval);
  }

  lemma {:induction false} DrainMatchesBranch(w: World, inp: Input, dup: nat, qual: nat)
    requires CursorMatchesBranch(w)
    ensures var (w', r) := Drain(w, inp, dup, qual);
            && CursorMatchesBranch(w')
            && (r.source.Some? ==> w'.store.cursor.Some? && w'.store.cursor.value.lastSource == r.source.value)
            && (r.pushed ==>
                  && r.source.Some? && r.published == Some(w'.tip) == w'.store.cursor.value.lastPublished
                  && w'.tip.meta.seconds == w'.store.cursor.value.updatedAt / 1000)
    decreases |Unprocessed(w.store.history, w.tip, inp.queue)|
  {
    hide CursorMatchesBranch, Unprocessed, Decide, Mark;
    var next := Unprocessed(w.store.history, w.tip, inp.queue);
    if next != [] {
      var now := inp.clock(dup + qual);
      DecideMakesProgress(w, now, inp);
      DecideMatchesBranch(w, next[0], now, inp);
      var verdict := Judge(w, next[0], inp.quality);
      if verdict.Published? {
        PublishedIsTip(w, next[0], now, inp);
      } else if dup + qual + 1 < inp.maxSkips {
        DrainMatchesBranch(Decide(w, next[0], now, inp), inp, dup + if verdict.Duplicate? then 1 else 0,
                           qual + if verdict.LowQuality? then 1 else 0);
      }
    }
  }

  lemma PublishedIsTip(w: World, c: Commit, now: int, inp: Input)
    requires Judge(w, c, inp.quality).Published?
    ensures var w' := Decide(w, c, now, inp);
            && w'.store.cursor.Some? && w'.store.cursor.value.lastPublished == Some(w'.tip)
            && w'.tip.meta.seconds == now / 1000 && w'.store.cursor.value.updatedAt == now
  {
  }

  /** At rest the cursor agrees with the branch, after skips of either kind as after pushes. */
  lemma {:induction false} TicksMatchBranch(w: World, inputs: seq<Input>)
    requires CursorMatchesBranch(w)
    ensures CursorMatchesBranch(Ticks(w, inputs))
    decreases |inputs|
  {
    hide CursorMatchesBranch, Drain;
    if inputs != [] {
      DrainMatchesBranch(w, inputs[0], 0, 0);
      TicksMatchBranch(Tick(w, inputs[0]).0, inputs[1..]);
    }
  }

  // The commits a drain decides, and its verdicts.
  function Decisions(w: World, inp: Input, used: nat): seq<(Commit, Verdict)>
    decreases |Unprocessed(w.store.history, w.tip, inp.queue)|
  {
    var next := Unprocessed(w.store.history, w.tip, inp.queue);
    if next == [] then []
    else
      var verdict, now := Judge(w, next[0], inp.quality), inp.clock(used);
      DecideMakesProgress(w, now, inp);
      if verdict.Published? || used + 1 >= inp.maxSkips then [(next[0], verdict)]
      else [(next[0], verdict)] + Decisions(Decide(w, next[0], now, inp), inp, used + 1)
  }

  ghost predicate SkippedOne(log: seq<(Commit, Verdict)>) {
    exists i | 0 <= i < |log| :: log[i].1 == Duplicate
  }

  /**
   * What a drain reports: the last commit it decided, unless it ran out of commits or the push was
   * rejected; and, if it did not try to push, whether it skipped any duplicate. It skips no more
   * than its budget, or one.
   */
  lemma {:induction false} DrainReports(w: World, inp: Input, dup: nat, qual: nat)
    ensures var (w', r) := Drain(w, inp, dup, qual);
            var log := Decisions(w, inp, dup + qual);
            var tried := log != [] && log[|log| - 1].1 == Published;
            && (forall i | 0 <= i < |log| - 1 :: log[i].1 != Published)
            && (r.pushed <==> tried && inp.accepted) && (r.threw <==> tried && !inp.accepted)
            && (r.skippedDuplicate <==> !tried && (dup > 0 || SkippedOne(log)))
            && (r.source.Some? ==> log != [] && r.source.value == log[|log| - 1].0)
            && (r.published.Some? <==> r.pushed)
            && (|log| > 1 ==> dup + qual + |log| - 1 < inp.maxSkips)
    decreases |Unprocessed(w.store.history, w.tip, inp.queue)|
  {
    DrainUnfolds(w, inp, dup, qual);
    hide Unprocessed, Judge, Decide, Drain;
    var next := Unprocessed(w.store.history, w.tip, inp.queue);
    if next != [] {
      var now := inp.clock(dup + qual);
      DecideMakesProgress(w, now, inp);
      var verdict := Judge(w, next[0], inp.quality);
      var log := Decisions(w, inp, dup + qual);
      assert log[0] == (next[0], verdict);
      if !verdict.Published? && dup + qual + 1 < inp.maxSkips {
        var rest := Decisions(Decide(w, next[0], now, inp), inp, dup + qual + 1);
        DrainReports(Decide(w, next[0], now, inp), inp, dup + if verdict.Duplicate? then 1 else 0,
                     qual + if verdict.LowQuality? then 1 else 0);
        assert log == [(next[0], verdict)] + rest;
        SkippedOneMore((next[0], verdict), rest);
      }
    }
  }

  lemma SkippedOneMore(first: (Commit, Verdict), rest: seq<(Commit, Verdict)>)
    ensures SkippedOne([first] + rest) <==> first.1 == Duplicate || SkippedOne(rest)
  {
    var log := [first] + rest;
    assert log[0] == first && forall i | 0 <= i < |rest| :: log[i + 1] == rest[i];
  }

  // Ticks of an enabled leader that each come when the next push is due, or do not know better.
  ghost predicate OnTime(w: World, inputs: seq<Input>)
    decreases |inputs|
  {
    inputs != [] ==>
      && inputs[0].enabled && inputs[0].leader
      && (!inputs[0].refreshed || IsDue(w.store, inputs[0].gateTime))
      && OnTime(Tick(w, inputs[0]).0, inputs[1..])
  }

  lemma OnTimeDrains(w: World, inp: Input)
    requires inp.enabled && inp.leader && (!inp.refreshed || IsDue(w.store, inp.gateTime))
    ensures Tick(w, inp) == Drain(w, inp, 0, 0)
  {
  }

  /** As many ticks on time with accepted pushes as there are pending commits drain the queue, under any budgets. */
  lemma {:induction false} OnTimeTicksDrain(w: World, inputs: seq<Input>, all: seq<Commit>)
    requires OnTime(w, inputs) && forall k | 0 <= k < |inputs| :: inputs[k].queue == all && inputs[k].accepted
    requires |inputs| >= |Unprocessed(w.store.history, w.tip, all)|
    ensures var w' := Ticks(w, inputs); Unprocessed(w'.store.history, w'.tip, all) == []
    decreases |inputs|
  {
    hide Drain, Tick, Unprocessed;
    if inputs != [] {
      OnTimeDrains(w, inputs[0]);
      DrainMakesProgress(w, inputs[0], 0, 0);
      OnTimeTicksDrain(Tick(w, inputs[0]).0, inputs[1..], all);
    }
  }

  // A schedule kept by the clock alone: the first tick is due, and every gate opens an interval
  // after any time read in the tick before.
  ghost predicate Scheduled(inputs: seq<Input>, interval: nat) {
    && (forall k | 0 <= k < |inputs| :: inputs[k].enabled && inputs[k].leader && inputs[k].interval == interval)
    && (forall k | 0 < k < |inputs| :: inputs[k - 1].gateTime <= inputs[k].gateTime)
    && (forall k | 0 < k < |inputs| :: IntervalPast(inputs[k - 1], inputs[k].gateTime))
  }

  ghost predicate IntervalPast(inp: Input, later: int) {
    forall i: nat :: inp.clock(i) + inp.interval <= later
  }

  lemma DecideIsDueBy(w: World, c: Commit, now: int, inp: Input, later: int)
    requires IsDue(w.store, later) && 0 <= inp.interval && now + inp.interval <= later
    ensures IsDue(Decide(w, c, now, inp).store, later)
  {
  }

  lemma {:induction false} DrainIsDueBy(w: World, inp: Input, dup: nat, qual: nat, later: int)
    requires IsDue(w.store, later) && 0 <= inp.interval && IntervalPast(inp, later)
    ensures IsDue(Drain(w, inp, dup, qual).0.store, later)
    decreases |Unprocessed(w.store.history, w.tip, inp.queue)|
  {
    hide Unprocessed, Judge, Decide, IsDue;
    var next := Unprocessed(w.store.history, w.tip, inp.queue);
    if next != [] {
      var now := inp.clock(dup + qual);
      DecideMakesProgress(w, now, inp);
      DecideIsDueBy(w, next[0], now, inp, later);
      var verdict := Judge(w, next[0], inp.quality);
      if !verdict.Published? && dup + qual + 1 < inp.maxSkips {
        DrainIsDueBy(Decide(w, next[0], now, inp), inp, dup + if verdict.Duplicate? then 1 else 0,
                     qual + if verdict.LowQuality? then 1 else 0, later);
      }
    }
  }

  lemma {:induction false} ScheduledIsOnTime(w: World, inputs: seq<Input>, interval: nat)
    requires Scheduled(inputs, interval) && (inputs != [] ==> IsDue(w.store, inputs[0].gateTime))
    ensures OnTime(w, inputs)
    decreases |inputs|
  {
    hide Drain, IsDue;
    if inputs != [] {
      var inp, w' := inputs[0], Tick(w, inputs[0]).0;
      assert forall k | 0 < k < |inputs| :: inputs[1..][k - 1] == inputs[k];
      OnTimeDrains(w, inp);
      if |inputs| > 1 {
        LaterIsDue(w.store, inp.gateTime, inputs[1].gateTime);
        DrainIsDueBy(w, inp, 0, 0, inputs[1].gateTime);
      }
      ScheduledIsOnTime(w', inputs[1..], interval);
    }
  }

  lemma LaterIsDue(s: State, now: int, later: int)
    requires IsDue(s, now) && now <= later
    ensures IsDue(s, later)
  {
  }

  /**
   * A pacer that ticks on schedule publishes everything it should: with as many ticks as pending
   * commits, whatever the refreshes report and the skip budgets are, the branch gains exactly the
   * one pass over the queue.
   */
  lemma ScheduledTicksPublishAll(w: World, inputs: seq<Input>, interval: nat, all: seq<Commit>, base: Input)
    requires RowsMatchTrees(w.store.history) && SameDeployment(inputs, all, base)
    requires Scheduled(inputs, interval) && (inputs != [] ==> IsDue(w.store, inputs[0].gateTime))
    requires forall k | 0 <= k < |inputs| :: inputs[k].queue == all && inputs[k].accepted
    requires |inputs| >= |Unprocessed(w.store.history, w.tip, all)|
    ensures IsReplay(w.tip, Ticks(w, inputs).tip, FirstGood(all, Seen(w), base.quality), base.sanitize)
  {
    hide Scheduled, OnTime, Ticks, Unprocessed, IsReplay, FirstGood, Seen;
    ScheduledIsOnTime(w, inputs, interval);
    OnTimeTicksDrain(w, inputs, all);
    DrainedIsOnePass(w, inputs, all, base);
  }
}
