/**
 * The durable half of the publisher: which queue commits are still to do, the history of
 * decisions, and the cursor that paces the next push. One (queue branch, publish branch) pair.
 */
module PublishQueue {
  import opened Options
  import opened GitHistory

  datatype HistoryRow = HistoryRow(
    source: Commit, published: Option<Commit>, tree: Tree, skippedDuplicate: bool, publishedAt: int)

  datatype Cursor = Cursor(
    lastSource: Commit, lastPublished: Option<Commit>, nextPublishAt: int, updatedAt: int)

  datatype State = State(history: seq<HistoryRow>, cursor: Option<Cursor>)

  datatype Entry = Entry(
    source: Commit, published: Option<Commit>, skippedDuplicate: bool, advanceSchedule: bool)

  predicate SourceProcessed(history: seq<HistoryRow>, c: Commit) {
    exists i | 0 <= i < |history| :: history[i].source == c
  }

  predicate TreeProcessed(history: seq<HistoryRow>, tree: Tree) {
    exists i | 0 <= i < |history| :: history[i].tree == tree
  }

  // A queue commit still to be decided: not reachable from the publish branch
  // (`publish..queue`), and neither it nor its tree has a history row.
  predicate Pending(history: seq<HistoryRow>, tip: Commit, c: Commit) {
    !Reaches(tip, c) && !SourceProcessed(history, c) && !TreeProcessed(history, c.tree)
  }

  function Unprocessed(history: seq<HistoryRow>, tip: Commit, queue: seq<Commit>): seq<Commit> {
    if queue == [] then []
    else if Pending(history, tip, queue[0]) then [queue[0]] + Unprocessed(history, tip, queue[1..])
    else Unprocessed(history, tip, queue[1..])
  }

  function NextPublishAt(cursor: Option<Cursor>, advanceSchedule: bool, now: int, interval: int): int {
    if advanceSchedule then now + interval
    else if cursor.Some? then cursor.value.nextPublishAt
    else now
  }

  function Mark(s: State, e: Entry, now: int, interval: int): State {
    var row := HistoryRow(e.source, e.published, e.source.tree, e.skippedDuplicate, now);
    State(
      if SourceProcessed(s.history, e.source) then s.history else s.history + [row],
      Some(Cursor(e.source, e.published, NextPublishAt(s.cursor, e.advanceSchedule, now, interval), now)))
  }

  // Every row speaks of its source's own tree.
  ghost predicate RowsMatchTrees(history: seq<HistoryRow>) {
    forall i | 0 <= i < |history| :: history[i].tree == history[i].source.tree
  }

  ghost predicate SourcesAreDistinct(history: seq<HistoryRow>) {
    forall i, j | 0 <= i < j < |history| :: history[i].source != history[j].source
  }

  /** Marking keeps every earlier row, records the source, and adds only the source's own tree. */
  lemma MarkRecords(s: State, e: Entry, now: int, interval: int)
    ensures var h := Mark(s, e, now, interval).history;
            && s.history <= h
            && SourceProcessed(h, e.source)
            && (RowsMatchTrees(s.history) ==> RowsMatchTrees(h) && TreeProcessed(h, e.source.tree))
            && (SourcesAreDistinct(s.history) ==> SourcesAreDistinct(h))
  {
    var h := Mark(s, e, now, interval).history;
    if !SourceProcessed(s.history, e.source) {
      assert h[|h| - 1].source == e.source;
    } else {
      var i :| 0 <= i < |s.history| && s.history[i].source == e.source;
    }
  }

  /** The first pending commit splits the queue, and everything before it is decided. */
  lemma {:induction false} FirstPending(history: seq<HistoryRow>, tip: Commit, queue: seq<Commit>) returns (i: nat)
    requires Unprocessed(history, tip, queue) != []
    ensures i < |queue| && queue[i] == Unprocessed(history, tip, queue)[0]
    ensures Pending(history, tip, queue[i])
    ensures !Reaches(tip, queue[i])
    ensures forall row | row in history :: row.source != queue[i] && row.tree != queue[i].tree
    ensures forall k | 0 <= k < i :: !Pending(history, tip, queue[k])
  {
    if Pending(history, tip, queue[0]) {
      i := 0;
      assert forall row | row in history :: exists k | 0 <= k < |history| :: history[k] == row;
    } else {
      var j := FirstPending(history, tip, queue[1..]);
      i := j + 1;
      forall k | 0 <= k < i ensures !Pending(history, tip, queue[k]) {
        if 0 < k { assert queue[k] == queue[1..][k - 1]; }
      }
    }
  }

  lemma {:induction false} NothingPending(history: seq<HistoryRow>, tip: Commit, queue: seq<Commit>)
    requires Unprocessed(history, tip, queue) == []
    ensures forall k | 0 <= k < |queue| :: !Pending(history, tip, queue[k])
  {
    if queue != [] {
      NothingPending(history, tip, queue[1..]);
      forall k | 0 <= k < |queue| ensures !Pending(history, tip, queue[k]) {
        if 0 < k { assert queue[k] == queue[1..][k - 1]; }
      }
    }
  }

  /** Deciding commits and moving the branch forward never makes a decided commit pending again. */
  lemma {:induction false} UnprocessedShrinks(
      h: seq<HistoryRow>, tip: Commit, h': seq<HistoryRow>, tip': Commit, queue: seq<Commit>)
    requires h <= h' && Reaches(tip', tip)
    ensures |Unprocessed(h', tip', queue)| <= |Unprocessed(h, tip, queue)|
    ensures (exists c | c in queue :: Pending(h, tip, c) && !Pending(h', tip', c)) ==>
              |Unprocessed(h', tip', queue)| < |Unprocessed(h, tip, queue)|
  {
    if queue != [] {
      UnprocessedShrinks(h, tip, h', tip', queue[1..]);
      if Reaches(tip, queue[0]) {
        ReachesIsTransitive(tip', tip, queue[0]);
      }
      assert Pending(h', tip', queue[0]) ==> Pending(h, tip, queue[0]) by {
        assert forall i | 0 <= i < |h| :: h[i] == h'[i];
      }
      if c :| c in queue && Pending(h, tip, c) && !Pending(h', tip', c) {
        assert c == queue[0] || c in queue[1..];
      }
    }
  }

  /** The in-memory store, updated in place. */
  class Store {
    var history: seq<HistoryRow>
    var cursor: Option<Cursor>

    constructor ()
      ensures Value() == State([], None)
    {
      history, cursor := [], None;
    }

    function Value(): State
      reads this
    {
      State(history, cursor)
    }

    method MarkQueuedCommitProcessed(e: Entry, now: int, interval: int)
      modifies this
      ensures Value() == Mark(old(Value()), e, now, interval)
      ensures old(RowsMatchTrees(history)) ==> RowsMatchTrees(history)
      ensures old(SourcesAreDistinct(history)) ==> SourcesAreDistinct(history)
      ensures SourceProcessed(history, e.source)
    {
      var next := if e.advanceSchedule then now + interval
                  else if cursor.Some? then cursor.value.nextPublishAt
                  else now;
      var seen := false;
      var i := 0;
      while i < |history|
        invariant 0 <= i <= |history|
        invariant seen <==> exists k | 0 <= k < i :: history[k].source == e.source
      {
        if history[i].source == e.source {
          seen := true;
        }
        i := i + 1;
      }
      if !seen {
        history := history + [HistoryRow(e.source, e.published, e.source.tree, e.skippedDuplicate, now)];
        assert history[|history| - 1].source == e.source;
      }
      cursor := Some(Cursor(e.source, e.published, next, now));
    }
  }
}
