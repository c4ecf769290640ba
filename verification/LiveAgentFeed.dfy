/**
 * The ambient feed: it plays workstreams round robin, step by step, publishing a cursor after each
 * step so that a later feed can go on from there. A workstream is given by its number of steps.
 */
module LiveAgentFeed {

  datatype Cursor = Cursor(workstreamIndex: nat, stepIndex: nat, cycle: nat)

  // One step played.
  datatype Mark = Mark(cycle: nat, workstream: nat, step: nat)

  function NonNegative(n: int): nat {
    if n < 0 then 0 else n
  }

  function NormalizeCursor(workstreamIndex: int, stepIndex: int, cycle: int): Cursor {
    Cursor(NonNegative(workstreamIndex), NonNegative(stepIndex), NonNegative(cycle))
  }

  function Advance(c: Cursor, total: nat): Cursor {
    var n := if total < 1 then 1 else total;
    var next := c.workstreamIndex + 1;
    Cursor(next % n, 0, c.cycle + if next >= n then 1 else 0)
  }

  datatype Played = Played(marks: seq<Mark>, cursor: Cursor, patience: nat, completed: bool)

  // `patience` is how many more times the feed will find that nobody has stopped it.
  function PlayWorkstream(steps: nat, c: Cursor, index: nat, i: nat, patience: nat): Played
    decreases steps - i
  {
    if i >= steps then Played([], c, patience, true)
    else if patience < 2 then Played([], c, 0, false)
    else
      var rest := PlayWorkstream(steps, Cursor(index, i + 1, c.cycle), index, i + 1, patience - 2);
      rest.(marks := [Mark(c.cycle, index, i)] + rest.marks)
  }

  lemma {:induction false} PlayingUsesPatience(steps: nat, c: Cursor, index: nat, i: nat, patience: nat)
    ensures PlayWorkstream(steps, c, index, i, patience).patience <= patience
    decreases steps - i
  {
    if i < steps && patience >= 2 {
      PlayingUsesPatience(steps, Cursor(index, i + 1, c.cycle), index, i + 1, patience - 2);
    }
  }

  function Session(ws: seq<nat>, c: Cursor, patience: nat): (seq<Mark>, Cursor)
    requires ws != []
    decreases patience
  {
    if patience < 2 then ([], c)
    else
      var index := c.workstreamIndex % |ws|;
      if c.stepIndex >= ws[index] then Session(ws, Advance(c, |ws|), patience - 2)
      else
        var played := PlayWorkstream(ws[index], c, index, c.stepIndex, patience - 2);
        PlayingUsesPatience(ws[index], c, index, c.stepIndex, patience - 2);
        var c' := if played.completed then Advance(played.cursor, |ws|) else played.cursor;
        if played.patience < 1 then (played.marks, c')
        else
          var rest := Session(ws, c', played.patience - 1);
          (played.marks + rest.0, rest.1)
  }

  // Feeds one after the other, each starting from the cursor the one before published last.
  function Sessions(ws: seq<nat>, c: Cursor, patiences: seq<nat>): (seq<Mark>, Cursor)
    requires ws != []
    decreases |patiences|
  {
    if patiences == [] then ([], c)
    else
      var first := Session(ws, c, patiences[0]);
      var published := first.1;
      var later := Sessions(ws, NormalizeCursor(published.workstreamIndex, published.stepIndex, published.cycle),
                            patiences[1..]);
      (first.0 + later.0, later.1)
  }

  // ---- What a feed should play -------------------------------------------------------------

  predicate Before(a: Mark, b: Mark) {
    a.cycle < b.cycle
    || (a.cycle == b.cycle && (a.workstream < b.workstream || (a.workstream == b.workstream && a.step < b.step)))
  }

  // The next step a cursor points at.
  function At(c: Cursor): Mark {
    Mark(c.cycle, c.workstreamIndex, c.stepIndex)
  }

  predicate IsStep(ws: seq<nat>, m: Mark) {
    m.workstream < |ws| && m.step < ws[m.workstream]
  }

  ghost predicate Increasing(marks: seq<Mark>) {
    forall i, j | 0 <= i < j < |marks| :: Before(marks[i], marks[j])
  }

  // `marks` is exactly the steps from `from` up to, not including, `to`, in round-robin order.
  ghost predicate Plays(ws: seq<nat>, from: Cursor, to: Cursor, marks: seq<Mark>) {
    && !Before(At(to), At(from))
    && Increasing(marks)
    && forall m :: m in marks <==> IsStep(ws, m) && !Before(m, At(from)) && Before(m, At(to))
  }

  lemma PlaysCompose(ws: seq<nat>, a: Cursor, b: Cursor, c: Cursor, first: seq<Mark>, second: seq<Mark>)
    requires Plays(ws, a, b, first) && Plays(ws, b, c, second)
    ensures Plays(ws, a, c, first + second)
  {
    var marks := first + second;
    forall i, j | 0 <= i < j < |marks| ensures Before(marks[i], marks[j]) {
      if i < |first| <= j {
        assert marks[i] in first && marks[j] in second;
      }
    }
    forall m ensures m in marks <==> IsStep(ws, m) && !Before(m, At(a)) && Before(m, At(c)) {
      assert m in marks <==> m in first || m in second;
    }
  }

  lemma NothingPlayed(ws: seq<nat>, c: Cursor)
    ensures Plays(ws, c, c, [])
  {
  }

  /** Moving on from the end of a workstream skips nothing. */
  lemma AdvanceSkipsNothing(ws: seq<nat>, c: Cursor)
    requires c.workstreamIndex < |ws| && c.stepIndex >= ws[c.workstreamIndex]
    ensures Plays(ws, c, Advance(c, |ws|), []) && Advance(c, |ws|).workstreamIndex < |ws|
  {
    hide Advance;
    AdvanceValue(c, |ws|);
  }

  lemma AdvanceValue(c: Cursor, total: nat)
    requires c.workstreamIndex < total
    ensures Advance(c, total) == if c.workstreamIndex + 1 < total then Cursor(c.workstreamIndex + 1, 0, c.cycle)
                                 else Cursor(0, 0, c.cycle + 1)
  {
    if c.workstreamIndex + 1 < total {
      assert (c.workstreamIndex + 1) % total == c.workstreamIndex + 1;
    } else {
      assert total % total == 0;
    }
  }

  lemma {:induction false} PlayWorkstreamPlays(ws: seq<nat>, c: Cursor, patience: nat)
    requires c.workstreamIndex < |ws|
    ensures var played := PlayWorkstream(ws[c.workstreamIndex], c, c.workstreamIndex, c.stepIndex, patience);
            && Plays(ws, c, played.cursor, played.marks)
            && played.cursor.workstreamIndex == c.workstreamIndex
            && (played.completed ==> played.cursor.stepIndex >= ws[c.workstreamIndex])
    decreases ws[c.workstreamIndex] - c.stepIndex
  {
    var steps, i := ws[c.workstreamIndex], c.stepIndex;
    if i < steps && patience >= 2 {
      var next := c.(stepIndex := i + 1);
      var rest := PlayWorkstream(steps, next, c.workstreamIndex, i + 1, patience - 2);
      PlayWorkstreamPlays(ws, next, patience - 2);
      assert Plays(ws, c, next, [At(c)]);
      PlaysCompose(ws, c, next, rest.cursor, [At(c)], rest.marks);
    }
  }

  // The cursor a feed is left with after playing a workstream as far as it got.
  function After(ws: seq<nat>, played: Played): Cursor {
    if played.completed then Advance(played.cursor, |ws|) else played.cursor
  }

  lemma WorkstreamTurnPlays(ws: seq<nat>, c: Cursor, patience: nat)
    requires c.workstreamIndex < |ws|
    ensures var played := PlayWorkstream(ws[c.workstreamIndex], c, c.workstreamIndex, c.stepIndex, patience);
            && Plays(ws, c, After(ws, played), played.marks)
            && After(ws, played).workstreamIndex < |ws|
            && played.patience <= patience
  {
    hide Plays, PlayWorkstream, Advance;
    var played := PlayWorkstream(ws[c.workstreamIndex], c, c.workstreamIndex, c.stepIndex, patience);
    PlayWorkstreamPlays(ws, c, patience);
    PlayingUsesPatience(ws[c.workstreamIndex], c, c.workstreamIndex, c.stepIndex, patience);
    if played.completed {
      AdvanceSkipsNothing(ws, played.cursor);
      PlaysCompose(ws, c, played.cursor, After(ws, played), played.marks, []);
      assert played.marks + [] == played.marks;
    }
  }

  // Where a feed really goes on from a cursor whose workstream may lie past the list.
  function Entry(ws: seq<nat>, c: Cursor): Cursor
    requires ws != []
  {
    var index := c.workstreamIndex % |ws|;
    if c.workstreamIndex < |ws| then c
    else if c.stepIndex >= ws[index] then Advance(c, |ws|)
    else Cursor(index, c.stepIndex, c.cycle)
  }

  lemma EntryIsInside(ws: seq<nat>, c: Cursor)
    requires ws != []
    ensures Entry(ws, c).workstreamIndex < |ws| && Entry(ws, Entry(ws, c)) == Entry(ws, c)
    ensures Entry(ws, c).workstreamIndex % |ws| == Entry(ws, c).workstreamIndex
  {
  }

  lemma SessionInsidePlays(ws: seq<nat>, c: Cursor, patience: nat)
    requires c.workstreamIndex < |ws| && patience >= 2
    requires forall c', p: nat | p < patience :: SessionIsSound(ws, c', p)
    ensures SessionIsSound(ws, c, patience)
  {
    hide Plays, PlayWorkstream, Advance;
    EntryIsInside(ws, c);
    if c.stepIndex >= ws[c.workstreamIndex] {
      var c' := Advance(c, |ws|);
      AdvanceSkipsNothing(ws, c);
      assert SessionIsSound(ws, c', patience - 2);
      var rest := Session(ws, c', patience - 2);
      PlaysCompose(ws, c, c', Entry(ws, rest.1), [], rest.0);
      assert [] + rest.0 == rest.0;
    } else {
      var played := PlayWorkstream(ws[c.workstreamIndex], c, c.workstreamIndex, c.stepIndex, patience - 2);
      WorkstreamTurnPlays(ws, c, patience - 2);
      if played.patience >= 1 {
        assert SessionIsSound(ws, After(ws, played), played.patience - 1);
        var rest := Session(ws, After(ws, played), played.patience - 1);
        PlaysCompose(ws, c, After(ws, played), Entry(ws, rest.1), played.marks, rest.0);
      }
    }
  }

  ghost predicate SessionIsSound(ws: seq<nat>, c: Cursor, patience: nat)
    requires ws != []
  {
    var s := Session(ws, c, patience);
    Plays(ws, Entry(ws, c), Entry(ws, s.1), s.0)
  }

  // A feed that starts past the list does what one that starts at its entry does.
  lemma SessionOutside(ws: seq<nat>, c: Cursor, patience: nat)
    requires ws != [] && c.workstreamIndex >= |ws| && patience >= 2
    ensures var index, e := c.workstreamIndex % |ws|, Entry(ws, c);
            if c.stepIndex >= ws[index] then Session(ws, c, patience) == Session(ws, e, patience - 2)
            else if patience < 4 then Session(ws, c, patience) == ([], c)
            else Session(ws, c, patience) == Session(ws, e, patience)
  {
    EntryIsInside(ws, c);
  }

  /** One feed, from any cursor, stopped at any point: exactly the steps between its first and its last cursor. */
  lemma {:induction false} SessionPlays(ws: seq<nat>, c: Cursor, patience: nat)
    requires ws != []
    ensures SessionIsSound(ws, c, patience)
    decreases patience, if c.workstreamIndex < |ws| then 0 else 1
  {
    NothingPlayed(ws, Entry(ws, c));
    hide Plays, Session, Entry;
    if patience < 2 {
      StoppedAtOnce(ws, c, patience);
    } else if c.workstreamIndex < |ws| {
      forall c', p: nat | p < patience ensures SessionIsSound(ws, c', p) {
        SessionPlays(ws, c', p);
      }
      SessionInsidePlays(ws, c, patience);
    } else {
      EntryIsInside(ws, c);
      SessionOutside(ws, c, patience);
      SessionPlays(ws, Entry(ws, c), patience);
      SessionPlays(ws, Entry(ws, c), patience - 2);
    }
  }

  lemma StoppedAtOnce(ws: seq<nat>, c: Cursor, patience: nat)
    requires ws != [] && patience < 2
    ensures Session(ws, c, patience) == ([], c)
  {
  }

  /** Any number of feeds, each stopped anywhere and resumed from its last published cursor. */
  lemma {:induction false} SessionsPlay(ws: seq<nat>, c: Cursor, patiences: seq<nat>)
    requires ws != []
    ensures var s := Sessions(ws, c, patiences); Plays(ws, Entry(ws, c), Entry(ws, s.1), s.0)
    decreases |patiences|
  {
    NothingPlayed(ws, Entry(ws, c));
    hide Plays, Session, Entry;
    if patiences != [] {
      var first := Session(ws, c, patiences[0]);
      SessionPlays(ws, c, patiences[0]);
      SessionsPlay(ws, first.1, patiences[1..]);
      var later := Sessions(ws, first.1, patiences[1..]);
      PlaysCompose(ws, Entry(ws, c), Entry(ws, first.1), Entry(ws, later.1), first.0, later.0);
    }
  }

  lemma {:induction false} IncreasingPrefix(s: seq<Mark>, t: seq<Mark>, bound: Mark)
    requires Increasing(s) && Increasing(t)
    requires forall m | m in s :: m in t && Before(m, bound)
    requires forall m | m in t && Before(m, bound) :: m in s
    ensures s <= t
  {
    if s != [] {
      assert s[0] in s && t != [];
      var i :| 0 <= i < |t| && t[i] == s[0];
      assert Before(t[0], bound);
      assert t[0] in s;
      var j :| 0 <= j < |s| && s[j] == t[0];
      assert s[0] == t[0];
      forall m | m in s[1..] ensures m in t[1..] && Before(m, bound) {
        assert m in s;
        var k :| 0 <= k < |s[1..]| && s[1..][k] == m;
        assert Before(s[0], s[k + 1]);
      }
      forall m | m in t[1..] && Before(m, bound) ensures m in s[1..] {
        assert m in t;
        var k :| 0 <= k < |t[1..]| && t[1..][k] == m;
        assert Before(t[0], t[k + 1]);
      }
      IncreasingPrefix(s[1..], t[1..], bound);
    }
  }

  lemma ShorterIsPrefix(ws: seq<nat>, from: Cursor, s: seq<Mark>, t: seq<Mark>, toS: Cursor, toT: Cursor)
    requires Plays(ws, from, toS, s) && Plays(ws, from, toT, t) && |s| <= |t|
    ensures s <= t
  {
    if Before(At(toT), At(toS)) {
      IncreasingPrefix(t, s, At(toT));
    } else {
      IncreasingPrefix(s, t, At(toS));
    }
  }

  /**
   * However a feed was stopped and resumed, and from whatever cursor it set out: what it played in
   * all is a prefix of what one uninterrupted feed that played at least as much did.
   */
  lemma ResumedIsPrefix(ws: seq<nat>, c: Cursor, patiences: seq<nat>, patience: nat)
    requires ws != [] && |Sessions(ws, c, patiences).0| <= |Session(ws, c, patience).0|
    ensures Sessions(ws, c, patiences).0 <= Session(ws, c, patience).0
    ensures Increasing(Sessions(ws, c, patiences).0)
  {
    var resumed, whole := Sessions(ws, c, patiences), Session(ws, c, patience);
    SessionsPlay(ws, c, patiences);
    SessionPlays(ws, c, patience);
    ShorterIsPrefix(ws, Entry(ws, c), resumed.0, whole.0, Entry(ws, resumed.1), Entry(ws, whole.1));
  }

  // ---- How far a feed gets -----------------------------------------------------------------

  // Workstreams begun before the cursor's, counted through all cycles.
  function Turn(ws: seq<nat>, c: Cursor): nat {
    c.cycle * |ws| + c.workstreamIndex
  }

  function Most(ws: seq<nat>): (n: nat)
    ensures forall i | 0 <= i < |ws| :: ws[i] <= n
  {
    if ws == [] then 0
    else
      var n := Most(ws[1..]);
      if ws[0] > n then ws[0] else n
  }

  // Patience enough for one turn of any workstream, both ways of checking for a stop included.
  function TurnPatience(ws: seq<nat>): nat {
    2 * Most(ws) + 3
  }

  lemma {:induction false} PatienceCompletes(steps: nat, c: Cursor, index: nat, i: nat, patience: nat)
    requires i <= steps && patience >= 2 * (steps - i)
    ensures var played := PlayWorkstream(steps, c, index, i, patience);
            && played.completed && played.patience == patience - 2 * (steps - i)
            && played.cursor.cycle == c.cycle && (i < steps ==> played.cursor.workstreamIndex == index)
            && (i == steps ==> played.cursor == c)
    decreases steps - i
  {
    if i < steps {
      PatienceCompletes(steps, Cursor(index, i + 1, c.cycle), index, i + 1, patience - 2);
    }
  }

  lemma AdvanceIsNextTurn(ws: seq<nat>, c: Cursor)
    requires c.workstreamIndex < |ws|
    ensures Turn(ws, Advance(c, |ws|)) == Turn(ws, c) + 1 && Advance(c, |ws|).workstreamIndex < |ws|
  {
    AdvanceValue(c, |ws|);
    hide Advance;
    assert (c.cycle + 1) * |ws| == c.cycle * |ws| + |ws|;
  }

  // One turn: the feed goes on from the next workstream with what patience is left.
  lemma OneTurn(ws: seq<nat>, c: Cursor, patience: nat) returns (c': Cursor, left: nat)
    requires c.workstreamIndex < |ws| && patience >= TurnPatience(ws)
    ensures c'.workstreamIndex < |ws| && Turn(ws, c') == Turn(ws, c) + 1
    ensures left >= patience - TurnPatience(ws) && Session(ws, c, patience).1 == Session(ws, c', left).1
  {
    hide Turn, PlayWorkstream;
    assert c.workstreamIndex % |ws| == c.workstreamIndex;
    var steps := ws[c.workstreamIndex];
    if c.stepIndex >= steps {
      c', left := Advance(c, |ws|), patience - 2;
      AdvanceIsNextTurn(ws, c);
    } else {
      var played := PlayWorkstream(steps, c, c.workstreamIndex, c.stepIndex, patience - 2);
      PatienceCompletes(steps, c, c.workstreamIndex, c.stepIndex, patience - 2);
      c', left := Advance(played.cursor, |ws|), played.patience - 1;
      AdvanceIsNextTurn(ws, played.cursor);
      SameTurn(ws, c, played.cursor);
    }
  }

  lemma SameTurn(ws: seq<nat>, a: Cursor, b: Cursor)
    requires a.cycle == b.cycle && a.workstreamIndex == b.workstreamIndex
    ensures Turn(ws, a) == Turn(ws, b)
  {
  }

  lemma {:induction false} TurnsPass(ws: seq<nat>, c: Cursor, patience: nat, turns: nat)
    requires c.workstreamIndex < |ws| && patience >= turns * TurnPatience(ws)
    ensures var end := Session(ws, c, patience).1;
            end.workstreamIndex < |ws| && Turn(ws, end) >= Turn(ws, c) + turns
    decreases turns
  {
    hide Turn, Session, Plays, TurnPatience;
    if turns == 0 {
      SessionMovesOn(ws, c, patience);
    } else {
      assert turns * TurnPatience(ws) == (turns - 1) * TurnPatience(ws) + TurnPatience(ws);
      assert (turns - 1) * TurnPatience(ws) >= 0;
      var c', left := OneTurn(ws, c, patience);
      TurnsPass(ws, c', left, turns - 1);
    }
  }

  lemma {:induction false} SessionStaysInside(ws: seq<nat>, c: Cursor, patience: nat)
    requires c.workstreamIndex < |ws|
    ensures Session(ws, c, patience).1.workstreamIndex < |ws|
    decreases patience
  {
    hide PlayWorkstream, Advance, Plays;
    if patience >= 2 {
      assert c.workstreamIndex % |ws| == c.workstreamIndex;
      if c.stepIndex >= ws[c.workstreamIndex] {
        AdvanceValue(c, |ws|);
        SessionStaysInside(ws, Advance(c, |ws|), patience - 2);
      } else {
        var played := PlayWorkstream(ws[c.workstreamIndex], c, c.workstreamIndex, c.stepIndex, patience - 2);
        WorkstreamTurnPlays(ws, c, patience - 2);
        if played.patience >= 1 {
          SessionStaysInside(ws, After(ws, played), played.patience - 1);
        }
      }
    }
  }

  // A feed never goes back.
  lemma SessionMovesOn(ws: seq<nat>, c: Cursor, patience: nat)
    requires c.workstreamIndex < |ws|
    ensures var end := Session(ws, c, patience).1; end.workstreamIndex < |ws| && Turn(ws, end) >= Turn(ws, c)
  {
    SessionPlays(ws, c, patience);
    SessionStaysInside(ws, c, patience);
    TurnsInOrder(ws, Session(ws, c, patience).1, c);
  }

  // Turns compare like cycle and workstream.
  lemma TurnsInOrder(ws: seq<nat>, a: Cursor, b: Cursor)
    requires a.workstreamIndex < |ws| && b.workstreamIndex < |ws|
    ensures !Before(At(a), At(b)) ==> Turn(ws, a) >= Turn(ws, b)
    ensures Turn(ws, a) > Turn(ws, b) ==> Before(At(b), At(a))
  {
    if a.cycle > b.cycle {
      LaterCycleLaterTurn(ws, b, a);
    } else if a.cycle < b.cycle {
      LaterCycleLaterTurn(ws, a, b);
    }
  }

  lemma LaterCycleLaterTurn(ws: seq<nat>, a: Cursor, b: Cursor)
    requires a.workstreamIndex < |ws| && a.cycle < b.cycle
    ensures Turn(ws, a) < Turn(ws, b)
  {
    var n := |ws|;
    assert b.cycle * n == (b.cycle - a.cycle - 1) * n + a.cycle * n + n;
    assert (b.cycle - a.cycle - 1) * n >= 0;
  }

  // The turns it takes to get past the step m, at most, and the patience for that.
  function TurnsPast(ws: seq<nat>, m: Mark): nat {
    m.cycle * |ws| + m.workstream + 1
  }

  function EnoughFor(ws: seq<nat>, m: Mark): nat {
    TurnsPast(ws, m) * TurnPatience(ws) + 2
  }

  lemma InsideFeedPlays(ws: seq<nat>, c: Cursor, m: Mark, patience: nat)
    requires c.workstreamIndex < |ws| && IsStep(ws, m) && !Before(m, At(c))
    requires patience >= TurnsPast(ws, m) * TurnPatience(ws)
    ensures m in Session(ws, c, patience).0
  {
    var end, at := Session(ws, c, patience).1, Cursor(m.workstream, m.step, m.cycle);
    assert Turn(ws, at) + 1 == TurnsPast(ws, m);
    hide Turn, Session, TurnPatience, TurnsPast;
    TurnsPass(ws, c, patience, TurnsPast(ws, m));
    SessionPlays(ws, c, patience);
    TurnsInOrder(ws, end, at);
    assert Before(m, At(end));
    assert Entry(ws, c) == c && Entry(ws, end) == end;
  }

  lemma TurnsTakePatience(ws: seq<nat>, m: Mark)
    ensures TurnsPast(ws, m) * TurnPatience(ws) >= 3
  {
    var a, b := TurnsPast(ws, m), TurnPatience(ws);
    hide TurnsPast, TurnPatience;
    assert a >= 1 && b >= 3 by { TurnsAreSome(ws, m); }
    assert a * b == (a - 1) * b + b && (a - 1) * b >= 0;
  }

  lemma TurnsAreSome(ws: seq<nat>, m: Mark)
    ensures TurnsPast(ws, m) >= 1 && TurnPatience(ws) >= 3
  {
  }

  /**
   * Every step at or after a feed's start is played, as soon as nobody stops the feed for long
   * enough, and from then on: whatever the cursor it sets out from.
   */
  lemma EveryStepIsPlayed(ws: seq<nat>, c: Cursor, m: Mark, patience: nat)
    requires ws != [] && IsStep(ws, m) && !Before(m, At(Entry(ws, c))) && patience >= EnoughFor(ws, m)
    ensures m in Session(ws, c, patience).0
  {
    TurnsTakePatience(ws, m);
    hide Session, TurnPatience, TurnsPast, Before, IsStep;
    if c.workstreamIndex < |ws| {
      InsideFeedPlays(ws, c, m, patience);
    } else {
      EntryIsInside(ws, c);
      SessionOutside(ws, c, patience);
      hide Entry;
      InsideFeedPlays(ws, Entry(ws, c), m, patience);
      InsideFeedPlays(ws, Entry(ws, c), m, patience - 2);
    }
  }

  lemma {:induction false} NoLonger(some: seq<Mark>, all: seq<Mark>)
    requires Increasing(some) && forall m | m in some :: m in all
    ensures |some| <= |all|
    decreases |some|
  {
    if some != [] {
      var n := |some| - 1;
      var last := some[n];
      assert last in all;
      var k :| 0 <= k < |all| && all[k] == last;
      var rest := all[..k] + all[k + 1..];
      forall m | m in some[..n] ensures m in rest {
        var i :| 0 <= i < n && some[i] == m;
        assert Before(some[i], some[n]);
        assert m in all && all == all[..k] + [all[k]] + all[k + 1..];
      }
      NoLonger(some[..n], rest);
    }
  }

  /** A feed with any step to play, left alone for long enough, plays as many as one likes. */
  lemma UnstoppedFeedGoesOn(ws: seq<nat>, c: Cursor, index: nat, count: nat) returns (patience: nat)
    requires index < |ws| && ws[index] > 0
    ensures forall p: nat | p >= patience :: |Session(ws, c, p).0| >= count
  {
    var start := Entry(ws, c).cycle + 1;
    var some := seq(count, k requires 0 <= k < count => Mark(start + k, index, 0));
    patience := EnoughFor(ws, Mark(start + count, index, 0));
    forall p: nat | p >= patience ensures |Session(ws, c, p).0| >= count {
      forall m | m in some ensures m in Session(ws, c, p).0 {
        EarlierIsEnough(ws, m, Mark(start + count, index, 0));
        EveryStepIsPlayed(ws, c, m, p);
      }
      NoLonger(some, Session(ws, c, p).0);
    }
  }

  lemma EarlierIsEnough(ws: seq<nat>, m: Mark, n: Mark)
    requires m.cycle <= n.cycle && m.workstream == n.workstream
    ensures EnoughFor(ws, m) <= EnoughFor(ws, n)
  {
    hide TurnPatience;
    assert m.cycle * |ws| <= n.cycle * |ws|;
    var a, b := TurnsPast(ws, m), TurnsPast(ws, n);
    assert a * TurnPatience(ws) <= b * TurnPatience(ws);
  }

  // ---- The feed as it runs -----------------------------------------------------------------

  class Feed {
    const workstreams: seq<nat>
    var cursor: Cursor
    var published: Cursor
    var patience: nat
    var played: seq<Mark>

    constructor (workstreams: seq<nat>, workstreamIndex: int, stepIndex: int, cycle: int, patience: nat)
      ensures this.workstreams == workstreams && this.patience == patience && played == []
      ensures cursor == published
      ensures cursor == Cursor(if workstreamIndex > 0 then workstreamIndex else 0,
                               if stepIndex > 0 then stepIndex else 0, if cycle > 0 then cycle else 0)
    {
      this.workstreams, this.patience, this.played := workstreams, patience, [];
      this.cursor := NormalizeCursor(workstreamIndex, stepIndex, cycle);
      this.published := NormalizeCursor(workstreamIndex, stepIndex, cycle);
    }

    method ShouldStop() returns (stop: bool)
      modifies this`patience
      ensures stop <==> old(patience) == 0
      ensures patience == if stop then 0 else old(patience) - 1
    {
      stop := patience == 0;
      if !stop {
        patience := patience - 1;
      }
    }

    method PublishCursor()
      modifies this`published
      ensures published == cursor
    {
      published := cursor;
    }

    method RunWorkstream(steps: nat, index: nat) returns (completed: bool)
      requires published == cursor
      modifies this
      ensures published == cursor
      ensures var p := PlayWorkstream(steps, old(cursor), index, old(cursor.stepIndex), old(patience));
              && played == old(played) + p.marks && cursor == p.cursor
              && patience == p.patience && completed == p.completed
    {
      var i := cursor.stepIndex;
      while i < steps
        invariant published == cursor
        invariant var p := PlayWorkstream(steps, old(cursor), index, old(cursor.stepIndex), old(patience));
                  var q := PlayWorkstream(steps, cursor, index, i, patience);
                  p.cursor == q.cursor && p.patience == q.patience && p.completed == q.completed
                  && old(played) + p.marks == played + q.marks
      {
        var stop := ShouldStop();
        if stop {
          return false;
        }
        stop := ShouldStop();
        if stop {
          return false;
        }
        played := played + [Mark(cursor.cycle, index, i)];
        cursor := Cursor(index, i + 1, cursor.cycle);
        PublishCursor();
        i := i + 1;
      }
      completed := true;
    }

    method Loop()
      requires workstreams != [] && published == cursor
      modifies this
      ensures published == cursor
      ensures played == old(played) + Session(workstreams, old(cursor), old(patience)).0
      ensures cursor == Session(workstreams, old(cursor), old(patience)).1
    {
      hide PlayWorkstream, Advance;
      while true
        invariant published == cursor
        invariant var s := Session(workstreams, old(cursor), old(patience));
                  var t := Session(workstreams, cursor, patience);
                  s.1 == t.1 && old(played) + s.0 == played + t.0
        decreases patience
      {
        var stop := ShouldStop();
        if stop {
          return;
        }
        stop := ShouldStop();
        if stop {
          return;
        }
        var index := cursor.workstreamIndex % |workstreams|;
        if cursor.stepIndex >= workstreams[index] {
          cursor := Advance(cursor, |workstreams|);
          PublishCursor();
          continue;
        }
        PlayingUsesPatience(workstreams[index], cursor, index, cursor.stepIndex, patience);
        var completed := RunWorkstream(workstreams[index], index);
        if completed {
          cursor := Advance(cursor, |workstreams|);
          PublishCursor();
        }
        stop := ShouldStop();
        if stop {
          return;
        }
      }
    }
  }
}
