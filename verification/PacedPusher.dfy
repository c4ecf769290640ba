/**
 * The paced publisher: one tick drains decided commits from the front of the queue and
 * publishes at most one commit. This module has one pacer; PacerProtocol has many.
 */
module PacedPusher {
  import opened Options
  import opened GitHistory
  import opened PublishQueue

  const COMMITTER := "hermes agent <hermeschain-agent@users.noreply.github.com>"

  // What a tick reads from its surroundings. `clock(i)` is the time read after i skips; `accepted`
  // says whether publishing goes through, or the remote rejects the push and git fails.
  datatype Input = Input(
    enabled: bool,
    leader: bool,
    refreshed: bool,
    queue: seq<Commit>,
    gateTime: int,
    clock: nat -> int,
    maxSkips: nat,
    interval: int,
    accepted: bool,
    quality: Commit -> bool,
    sanitize: string -> string)

  datatype World = World(store: State, tip: Commit)

  // `threw` stands for the exception a failed push leaves the tick with.
  datatype Result = Result(
    pushed: bool, skippedDuplicate: bool, source: Option<Commit>, published: Option<Commit>, threw: bool)

  const NOTHING := Result(false, false, None, None, false)

  function Replay(parent: Commit, source: Commit, now: int, sanitize: string -> string): Commit {
    Commit([parent], source.tree, Meta(sanitize(source.meta.message), source.meta.author, COMMITTER, now / 1000))
  }

  // A failed status refresh reports no `nextPublishAt`, so it lets the tick through.
  predicate Admitted(w: World, inp: Input) {
    && inp.enabled
    && inp.leader
    && (inp.refreshed && w.store.cursor.Some? ==> w.store.cursor.value.nextPublishAt <= inp.gateTime)
  }

  datatype Verdict = Duplicate | LowQuality | Published

  function Judge(w: World, c: Commit, quality: Commit -> bool): Verdict {
    if FindByTree(w.tip, c.tree).Some? || TreeProcessed(w.store.history, c.tree) then Duplicate
    else if !quality(c) then LowQuality
    else Published
  }

  function EntryFor(w: World, c: Commit, now: int, inp: Input): Entry {
    match Judge(w, c, inp.quality)
    case Duplicate => Entry(c, FindByTree(w.tip, c.tree), true, false)
    case LowQuality => Entry(c, None, true, false)
    case Published => Entry(c, Some(Replay(w.tip, c, now, inp.sanitize)), false, true)
  }

  // The world after `c` is judged, published if good, and marked.
  function Decide(w: World, c: Commit, now: int, inp: Input): World {
    var e := EntryFor(w, c, now, inp);
    World(Mark(w.store, e, now, inp.interval),
          if e.advanceSchedule then Replay(w.tip, c, now, inp.sanitize) else w.tip)
  }

  function Drain(w: World, inp: Input, dup: nat, qual: nat): (World, Result)
    decreases |Unprocessed(w.store.history, w.tip, inp.queue)|
  {
    var next := Unprocessed(w.store.history, w.tip, inp.queue);
    if next == [] then (w, NOTHING.(skippedDuplicate := dup > 0))
    else
      var c, verdict := next[0], Judge(w, next[0], inp.quality);
      var w' := Decide(w, c, inp.clock(dup + qual), inp);
      DecideMakesProgress(w, inp.clock(dup + qual), inp);
      var dup' := dup + if verdict.Duplicate? then 1 else 0;
      var qual' := qual + if verdict.LowQuality? then 1 else 0;
      if verdict.Published? && !inp.accepted then (w, NOTHING.(threw := true))
      else if verdict.Published? then (w', Result(true, false, Some(c), Some(w'.tip), false))
      else if dup' + qual' >= inp.maxSkips then (w', Result(false, dup' > 0, Some(c), None, false))
      else Drain(w', inp, dup', qual')
  }

  function Tick(w: World, inp: Input): (World, Result) {
    if Admitted(w, inp) then Drain(w, inp, 0, 0) else (w, NOTHING)
  }

  function Ticks(w: World, inputs: seq<Input>): World
    decreases |inputs|
  {
    if inputs == [] then w else Ticks(Tick(w, inputs[0]).0, inputs[1..])
  }

  /** Deciding the first pending commit leaves strictly less work. */
  lemma DecideMakesProgress(w: World, now: int, inp: Input)
    requires Unprocessed(w.store.history, w.tip, inp.queue) != []
    ensures var before := Unprocessed(w.store.history, w.tip, inp.queue);
            var w' := Decide(w, before[0], now, inp);
            |Unprocessed(w'.store.history, w'.tip, inp.queue)| < |before|
  {
    var i := FirstPending(w.store.history, w.tip, inp.queue);
    var c := inp.queue[i];
    assert c in inp.queue;
    MarkRecords(w.store, EntryFor(w, c, now, inp), now, inp.interval);
    var w' := Decide(w, c, now, inp);
    assert w.tip in Replay(w.tip, c, now, inp.sanitize).parents;
    assert Reaches(w'.tip, w.tip);
    UnprocessedShrinks(w.store.history, w.tip, w'.store.history, w'.tip, inp.queue);
  }

  /** A decision spelled out: the test that leads to it, and what is marked. */
  lemma DecideUnfolds(w: World, c: Commit, now: int, inp: Input)
    ensures var w', found := Decide(w, c, now, inp), FindByTree(w.tip, c.tree);
            match Judge(w, c, inp.quality)
            case Duplicate =>
              && (found.Some? || TreeProcessed(w.store.history, c.tree))
              && w' == World(Mark(w.store, Entry(c, found, true, false), now, inp.interval), w.tip)
            case LowQuality =>
              && found.None? && !TreeProcessed(w.store.history, c.tree) && !inp.quality(c)
              && w' == World(Mark(w.store, Entry(c, None, true, false), now, inp.interval), w.tip)
            case Published =>
              && found.None? && !TreeProcessed(w.store.history, c.tree) && inp.quality(c)
              && var p := Replay(w.tip, c, now, inp.sanitize);
                 w' == World(Mark(w.store, Entry(c, Some(p), false, true), now, inp.interval), p)
  {
    hide FindByTree, TreeProcessed, Mark, Replay;
  }

  /** What one pass of the drain loop does, as a choice between its verdicts. */
  lemma DrainUnfolds(w: World, inp: Input, dup: nat, qual: nat)
    ensures var next := Unprocessed(w.store.history, w.tip, inp.queue);
            next == [] ==> Drain(w, inp, dup, qual) == (w, NOTHING.(skippedDuplicate := dup > 0))
    ensures var next := Unprocessed(w.store.history, w.tip, inp.queue);
            next != [] ==>
              var c, after := next[0], Drain(w, inp, dup, qual);
              var w' := Decide(w, c, inp.clock(dup + qual), inp);
              match Judge(w, c, inp.quality)
              case Published =>
                after == if inp.accepted then (w', Result(true, false, Some(c), Some(w'.tip), false))
                         else (w, NOTHING.(threw := true))
              case Duplicate =>
                after == if dup + 1 + qual >= inp.maxSkips then (w', Result(false, true, Some(c), None, false))
                         else Drain(w', inp, dup + 1, qual)
              case LowQuality =>
                after == if dup + qual + 1 >= inp.maxSkips then (w', Result(false, dup > 0, Some(c), None, false))
                         else Drain(w', inp, dup, qual + 1)
  {
    hide Judge, Decide, Unprocessed;
  }

  class Remote {
    var publishTip: Commit

    constructor (tip: Commit)
      ensures publishTip == tip
    {
      publishTip := tip;
    }
  }

  class PacedPusher {
    const store: Store
    const remote: Remote
    var tickInFlight: bool

    constructor (store: Store, remote: Remote)
      ensures this.store == store && this.remote == remote && !tickInFlight
    {
      this.store, this.remote, tickInFlight := store, remote, false;
    }

    function Value(): World
      reads store, remote
    {
      World(store.Value(), remote.publishTip)
    }

    method TickNow(inp: Input) returns (r: Result)
      modifies this, store, remote
      ensures old(tickInFlight) ==> r == NOTHING && Value() == old(Value()) && tickInFlight
      ensures !old(tickInFlight) ==> (Value(), r) == Tick(old(Value()), inp) && !tickInFlight
    {
      if tickInFlight {
        return NOTHING;
      }
      tickInFlight := true;
      if !inp.enabled || !inp.leader
         || (inp.refreshed && store.cursor.Some? && store.cursor.value.nextPublishAt > inp.gateTime) {
        tickInFlight := false;
        return NOTHING;
      }
      r := DrainQueue(inp);
      tickInFlight := false;
    }

    // The loop of a tick, up to its ways out.
    method DrainQueue(inp: Input) returns (r: Result)
      modifies store, remote
      ensures (Value(), r) == Drain(old(Value()), inp, 0, 0)
    {
      hide Drain, Unprocessed, Mark, Replay, FindByTree, TreeProcessed, Judge, Decide;
      var duplicateSkips, qualitySkips := 0, 0;
      while true
        invariant Drain(old(Value()), inp, 0, 0) == Drain(Value(), inp, duplicateSkips, qualitySkips)
        invariant duplicateSkips >= 0 && qualitySkips >= 0
        decreases |Unprocessed(store.history, remote.publishTip, inp.queue)|
      {
        var next := Unprocessed(store.history, remote.publishTip, inp.queue);
        DrainUnfolds(Value(), inp, duplicateSkips, qualitySkips);
        if next == [] {
          return NOTHING.(skippedDuplicate := duplicateSkips > 0);
        }
        var c, now := next[0], inp.clock(duplicateSkips + qualitySkips);
        DecideMakesProgress(Value(), now, inp);
        DecideUnfolds(Value(), c, now, inp);
        var found := FindByTree(remote.publishTip, c.tree);
        if found.Some? || TreeProcessed(store.history, c.tree) {
          duplicateSkips := duplicateSkips + 1;
          store.MarkQueuedCommitProcessed(Entry(c, found, true, false), now, inp.interval);
          if duplicateSkips + qualitySkips >= inp.maxSkips {
            return Result(false, true, Some(c), None, false);
          }
        } else if !inp.quality(c) {
          qualitySkips := qualitySkips + 1;
          store.MarkQueuedCommitProcessed(Entry(c, None, true, false), now, inp.interval);
          if duplicateSkips + qualitySkips >= inp.maxSkips {
            return Result(false, duplicateSkips > 0, Some(c), None, false);
          }
        } else if !inp.accepted {
          return NOTHING.(threw := true);
        } else {
          var p := Replay(remote.publishTip, c, now, inp.sanitize);
          remote.publishTip := p;
          store.MarkQueuedCommitProcessed(Entry(c, Some(p), false, true), now, inp.interval);
          return Result(true, false, Some(c), Some(p), false);
        }
      }
    }
  }
}
