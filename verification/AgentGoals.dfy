/** Goals: verified runs credit subgoals one at a time until the rounded progress reaches 100. */
module AgentGoals {

  datatype SubStatus = Pending | Active | Done | SubBlocked

  datatype GoalStatus = Open | InProgress | Completed | Abandoned

  datatype GoalValue = GoalValue(status: GoalStatus, progress: int, subgoals: seq<SubStatus>)

  // Subgoals given as strings: the first is active, the rest are pending.
  function NormalizeSubgoals(n: nat): seq<SubStatus> {
    seq(n, i => if i == 0 then Active else Pending)
  }

  function NewGoal(n: nat): GoalValue {
    GoalValue(Open, 0, NormalizeSubgoals(n))
  }

  function FirstOf(subgoals: seq<SubStatus>, status: SubStatus): (i: nat)
    ensures i <= |subgoals|
    ensures i < |subgoals| ==> subgoals[i] == status
    ensures forall k | 0 <= k < i :: subgoals[k] != status
  {
    if subgoals == [] || subgoals[0] == status then 0 else 1 + FirstOf(subgoals[1..], status)
  }

  function CountDone(subgoals: seq<SubStatus>): nat {
    if subgoals == [] then 0 else (if subgoals[0].Done? then 1 else 0) + CountDone(subgoals[1..])
  }

  // Percents h for which h and a half, as `part / whole * 100` in doubles, falls just short of it.
  const SHORT_HALVES: set<nat> := {14, 28, 56, 57}

  // `Math.round(part / whole * 100)`: halves up, but for those that doubles fall short of. Other
  // shares are too far from a half for double rounding to matter.
  function Percent(part: nat, whole: nat): nat {
    var n := if whole < 1 then 1 else whole;
    var rounded := (200 * part + n) / (2 * n);
    if (200 * part + n) % (2 * n) == 0 && rounded > 0 && rounded - 1 in SHORT_HALVES then rounded - 1 else rounded
  }

  function ClampPercent(p: int): int {
    if p < 0 then 0 else if p > 100 then 100 else p
  }

  function UpdateProgress(g: GoalValue, p: int): GoalValue {
    g.(progress := ClampPercent(p),
       status := if p >= 100 then Completed
                 else if p > 0 && g.status.Open? then InProgress
                 else g.status)
  }

  /** Progress is kept between 0 and 100; a goal completes at 100 and sets out at the first progress. */
  lemma UpdateProgressMeans(g: GoalValue, p: int)
    ensures var g' := UpdateProgress(g, p);
            && g'.subgoals == g.subgoals
            && g'.progress == (if p <= 0 then 0 else if p >= 100 then 100 else p)
            && (p >= 100 ==> g'.status == Completed)
            && (p < 100 ==> g'.status == if g.status == Open && p > 0 then InProgress else g.status)
  {
  }

  function SetFirst(subgoals: seq<SubStatus>, from: SubStatus, to: SubStatus): seq<SubStatus> {
    var i := FirstOf(subgoals, from);
    if i < |subgoals| then subgoals[i := to] else subgoals
  }

  // One verified run: the active subgoal, or else the first pending one, is done, and the first
  // pending one left becomes active. Without either the progress goes up by ten.
  function Credit(g: GoalValue): GoalValue {
    var active := FirstOf(g.subgoals, Active);
    var next := if active < |g.subgoals| then active else FirstOf(g.subgoals, Pending);
    if next < |g.subgoals| then
      var subgoals := SetFirst(g.subgoals[next := Done], Pending, Active);
      UpdateProgress(g.(subgoals := subgoals), Percent(CountDone(subgoals), |subgoals|))
    else UpdateProgress(g, if g.progress + 10 < 100 then g.progress + 10 else 100)
  }

  function Credits(g: GoalValue, k: nat): GoalValue {
    if k == 0 then g else Credit(Credits(g, k - 1))
  }

  // ---- How a goal moves --------------------------------------------------------------------

  // `k` done, then one active if any are left, then pending.
  function Shape(n: nat, k: nat): seq<SubStatus> {
    seq(n, i => if i < k then Done else if i == k then Active else Pending)
  }

  // The number of credited runs that complete a goal of n subgoals: 199/200 of n, rounded up.
  function RunsToComplete(n: nat): nat {
    (199 * n + 199) / 200
  }

  lemma {:induction false} CountDoneOfShape(n: nat, k: nat, s: seq<SubStatus>)
    requires k <= n && s == Shape(n, k)
    ensures CountDone(s) == k
    decreases n
  {
    if n > 0 {
      if k > 0 {
        assert s[1..] == Shape(n - 1, k - 1);
        CountDoneOfShape(n - 1, k - 1, s[1..]);
      } else {
        NoneDone(s);
      }
    }
  }

  lemma {:induction false} NoneDone(s: seq<SubStatus>)
    requires forall i | 0 <= i < |s| :: !s[i].Done?
    ensures CountDone(s) == 0
  {
    if s != [] {
      NoneDone(s[1..]);
    }
  }

  lemma CreditMovesShape(g: GoalValue, n: nat, k: nat)
    requires k < n && g.subgoals == Shape(n, k)
    ensures Credit(g) == UpdateProgress(g.(subgoals := Shape(n, k + 1)), Percent(k + 1, n))
  {
    assert g.subgoals[k] == Active;
    var marked := g.subgoals[k := Done];
    assert SetFirst(marked, Pending, Active) == Shape(n, k + 1) by {
      if k + 1 < n { assert marked[k + 1] == Pending; }
    }
    CountDoneOfShape(n, k + 1, Shape(n, k + 1));
  }

  // The share rounded with halves up, and when the double falls short of it.
  lemma PercentBounds(k: nat, n: nat)
    requires 1 <= n
    ensures var q := (200 * k + n) / (2 * n);
            && Percent(k, n) <= q <= Percent(k, n) + 1
            && (Percent(k, n) < q ==> 200 * k + n == q * (2 * n) && q < 100)
  {
    var q, r := (200 * k + n) / (2 * n), (200 * k + n) % (2 * n);
    assert 200 * k + n == q * (2 * n) + r;
  }

  lemma PercentReaches(k: nat, n: nat)
    requires 1 <= n
    ensures Percent(k, n) >= 100 <==> k >= RunsToComplete(n)
  {
    PercentBounds(k, n);
    assert Percent(k, n) >= 100 <==> 200 * k + n >= 200 * n by {
      DivAtLeast(200 * k + n, 2 * n, 100);
    }
  }

  lemma DivAtLeast(a: nat, b: nat, q: nat)
    requires b > 0
    ensures a / b >= q <==> a >= q * b
  {
    assert a == (a / b) * b + a % b;
    if a / b >= q {
      assert (a / b) * b >= q * b;
    } else {
      assert (a / b + 1) * b <= q * b;
    }
  }

  lemma PercentGrows(j: nat, k: nat, n: nat)
    requires j <= k && 1 <= n
    ensures Percent(j, n) <= Percent(k, n)
  {
    if j < k {
      var p, q := (200 * j + n) / (2 * n), (200 * k + n) / (2 * n);
      PercentBounds(j, n);
      PercentBounds(k, n);
      hide Percent;
      DivAtLeast(200 * k + n, 2 * n, p);
      DivAtLeast(200 * j + n, 2 * n, p);
    }
  }

  /**
   * The percentage is the nearest whole number to the share; of the shares half way between two,
   * it is the upper one but for 14.5, 28.5, 56.5 and 57.5.
   */
  lemma PercentIsNearest(k: nat, n: nat)
    requires 1 <= n
    ensures var p := Percent(k, n); 2 * n * p - n <= 200 * k <= 2 * n * p + n
    ensures forall h: nat | 200 * k == (2 * h + 1) * n :: Percent(k, n) == if h in {14, 28, 56, 57} then h else h + 1
  {
    PercentBounds(k, n);
    NearestWithin(k, n, Percent(k, n));
    forall h: nat | 200 * k == (2 * h + 1) * n ensures Percent(k, n) == if h in {14, 28, 56, 57} then h else h + 1 {
      HalfIsRounded(k, n, h);
    }
  }

  lemma NearestWithin(k: nat, n: nat, p: nat)
    requires 1 <= n
    requires var q := (200 * k + n) / (2 * n); p <= q <= p + 1 && (p < q ==> 200 * k + n == q * (2 * n))
    ensures 2 * n * p - n <= 200 * k <= 2 * n * p + n
  {
    var q, r, m := (200 * k + n) / (2 * n), (200 * k + n) % (2 * n), 2 * n;
    assert 200 * k + n == q * m + r && 0 <= r < m;
    assert q * m == m * q;
    if p < q { assert m * q == m * p + m; }
  }

  lemma HalfIsRounded(k: nat, n: nat, h: nat)
    requires 1 <= n && 200 * k == (2 * h + 1) * n
    ensures Percent(k, n) == if h in {14, 28, 56, 57} then h else h + 1
  {
    assert 200 * k + n == (h + 1) * (2 * n);
    HalfIsWhole(200 * k + n, n, h + 1);
  }

  lemma HalfIsWhole(a: nat, n: nat, q: nat)
    requires n > 0 && a == q * (2 * n)
    ensures a / (2 * n) == q && a % (2 * n) == 0
  {
    DivAtLeast(a, 2 * n, q);
    DivAtLeast(a, 2 * n, q + 1);
    assert a == (a / (2 * n)) * (2 * n) + a % (2 * n);
  }

  /** What a verified run does to any subgoals, blocked ones among them. */
  lemma CreditEffect(g: GoalValue)
    ensures var active, pending := FirstOf(g.subgoals, Active), FirstOf(g.subgoals, Pending);
            var next := if active < |g.subgoals| then active else pending;
            var g' := Credit(g);
            && |g'.subgoals| == |g.subgoals|
            && (next == |g.subgoals| ==> g'.subgoals == g.subgoals)
            && (next < |g.subgoals| ==>
                  && g'.subgoals[next] == Done
                  && forall i | 0 <= i < |g.subgoals| && i != next ::
                       var isNext := g.subgoals[i] == Pending
                                     && forall j | 0 <= j < i && j != next :: g.subgoals[j] != Pending;
                       g'.subgoals[i] == if isNext then Active else g.subgoals[i])
  {
    var active, pending := FirstOf(g.subgoals, Active), FirstOf(g.subgoals, Pending);
    var next := if active < |g.subgoals| then active else pending;
    if next < |g.subgoals| {
      var marked := g.subgoals[next := Done];
      var i := FirstOf(marked, Pending);
      assert forall j | 0 <= j < |marked| && j != next :: marked[j] == g.subgoals[j];
    }
  }

  // A goal of n subgoals after k credited runs: k done, then one active, then pending; the rounded
  // share as its progress; complete exactly from `RunsToComplete(n)` runs on.
  ghost predicate AfterRuns(g: GoalValue, n: nat, k: nat) {
    && g.subgoals == Shape(n, k)
    && g.progress == ClampPercent(Percent(k, n))
    && g.status == if k >= RunsToComplete(n) then Completed else if g.progress > 0 then InProgress else Open
  }

  lemma CreditAdvances(g: GoalValue, n: nat, k: nat)
    requires 1 <= n && k < RunsToComplete(n) && AfterRuns(g, n, k)
    ensures AfterRuns(Credit(g), n, k + 1)
  {
    hide Percent, RunsToComplete, CountDone, Credit, Shape;
    EarlyFrom200(n);
    CreditMovesShape(g, n, k);
    PercentGrows(k, k + 1, n);
    PercentReaches(k, n);
    PercentReaches(k + 1, n);
  }

  /** Every goal created from n string subgoals goes that way, run by run, until it is complete. */
  lemma {:induction false} GoalAfterRuns(n: nat, k: nat)
    requires 1 <= n && k <= RunsToComplete(n)
    ensures AfterRuns(Credits(NewGoal(n), k), n, k)
  {
    hide Percent, RunsToComplete, CountDone, Credit;
    if k == 0 {
      assert NormalizeSubgoals(n) == Shape(n, 0);
      PercentOfNone(n);
    } else {
      GoalAfterRuns(n, k - 1);
      CreditAdvances(Credits(NewGoal(n), k - 1), n, k - 1);
    }
  }

  lemma PercentOfNone(n: nat)
    requires 1 <= n
    ensures Percent(0, n) == 0 && RunsToComplete(n) >= 1
  {
    assert n / (2 * n) == 0;
  }

  /** Progress never falls on the way. */
  lemma ProgressIsMonotone(n: nat, j: nat, k: nat)
    requires 1 <= n && j <= k <= RunsToComplete(n)
    ensures Credits(NewGoal(n), j).progress <= Credits(NewGoal(n), k).progress
  {
    GoalAfterRuns(n, j);
    GoalAfterRuns(n, k);
    PercentGrows(j, k, n);
  }

  /** A goal takes all its n runs exactly when n is under 200; from there rounding completes it early. */
  lemma EarlyFrom200(n: nat)
    ensures RunsToComplete(n) == n <==> n < 200
    ensures RunsToComplete(n) <= n
  {
  }

  /** A goal without subgoals completes at its tenth run. */
  lemma {:induction false} GoalWithoutSubgoals(k: nat)
    requires k <= 10
    ensures var g := Credits(NewGoal(0), k);
            g.progress == 10 * k && g.subgoals == [] && (g.status.Completed? <==> k == 10)
  {
    hide Percent, CountDone, SetFirst;
    if k > 0 {
      GoalWithoutSubgoals(k - 1);
    }
  }

  // ---- The goals as they are kept ----------------------------------------------------------

  function Overlap(goalTags: seq<string>, tags: set<string>): nat {
    if goalTags == [] then 0 else (if goalTags[0] in tags then 1 else 0) + Overlap(goalTags[1..], tags)
  }

  /** The overlap counts the goal's tags among the given ones; it is none exactly when none is. */
  lemma {:induction false} OverlapCounts(a: seq<string>, b: seq<string>, tags: set<string>)
    ensures Overlap(a + b, tags) == Overlap(a, tags) + Overlap(b, tags) && Overlap(a, tags) <= |a|
    ensures forall t :: Overlap([t], tags) == if t in tags then 1 else 0
    ensures Overlap(a, tags) > 0 <==> exists t :: t in a && t in tags
  {
    forall t ensures Overlap([t], tags) == if t in tags then 1 else 0 {
      assert [t][1..] == [];
    }
    if a == [] {
      assert a + b == b;
    } else {
      OverlapCounts(a[1..], b, tags);
      assert (a + b)[1..] == a[1..] + b;
      assert a == [a[0]] + a[1..];
    }
  }

  class Goal {
    const tags: seq<string>
    var status: GoalStatus
    var progress: int
    var subgoals: seq<SubStatus>

    constructor (n: nat, tags: seq<string>)
      ensures Value() == NewGoal(n) && this.tags == tags
    {
      this.tags, status, progress, subgoals := tags, Open, 0, NormalizeSubgoals(n);
    }

    function Value(): GoalValue
      reads this
    {
      GoalValue(status, progress, subgoals)
    }

    predicate IsOpen()
      reads this
    {
      status.Open? || status.InProgress?
    }

    method SetProgress(p: int)
      modifies this`status, this`progress
      ensures Value() == UpdateProgress(old(Value()), p)
    {
      progress := ClampPercent(p);
      if p >= 100 {
        status := Completed;
      } else if p > 0 && status.Open? {
        status := InProgress;
      }
    }

    method FindSubgoal(s: SubStatus) returns (i: nat)
      ensures i == FirstOf(subgoals, s)
    {
      i := 0;
      while i < |subgoals| && subgoals[i] != s
        invariant i <= |subgoals|
        invariant FirstOf(subgoals, s) == i + FirstOf(subgoals[i..], s)
      {
        i := i + 1;
      }
    }

    method RecordVerifiedRun()
      modifies this
      ensures Value() == Credit(old(Value()))
    {
      var next := FindSubgoal(Active);
      if next == |subgoals| {
        next := FindSubgoal(Pending);
      }
      if next < |subgoals| {
        subgoals := subgoals[next := Done];
        var pending := FindSubgoal(Pending);
        if pending < |subgoals| {
          subgoals := subgoals[pending := Active];
        }
        SetProgress(Percent(CountDone(subgoals), |subgoals|));
      } else {
        SetProgress(if progress + 10 < 100 then progress + 10 else 100);
      }
    }
  }

  class AgentGoalsSystem {
    var goals: seq<Goal>

    constructor ()
      ensures goals == []
    {
      goals := [];
    }

    // The open goal sharing most tags, the earliest of equals; none when no open goal shares any.
    ghost predicate IsBest(i: nat, tags: set<string>)
      reads this, goals
      requires i < |goals|
    {
      && goals[i].status in {Open, InProgress} && Overlap(goals[i].tags, tags) > 0
      && (forall k | 0 <= k < |goals| && goals[k].status in {Open, InProgress} ::
            Overlap(goals[k].tags, tags) <= Overlap(goals[i].tags, tags))
      && (forall k | 0 <= k < i && goals[k].status in {Open, InProgress} ::
            Overlap(goals[k].tags, tags) < Overlap(goals[i].tags, tags))
    }

    method GetGoalForObjectiveTags(tags: set<string>) returns (best: int)
      ensures -1 <= best < |goals|
      ensures best >= 0 ==> IsBest(best, tags)
      ensures best < 0 ==>
                forall k | 0 <= k < |goals| && goals[k].status in {Open, InProgress} ::
                  Overlap(goals[k].tags, tags) == 0
    {
      best := -1;
      var bestScore := 0;
      for i := 0 to |goals|
        invariant -1 <= best < i
        invariant best < 0 ==> bestScore == 0
        invariant best >= 0 ==> goals[best].IsOpen() && bestScore == Overlap(goals[best].tags, tags) > 0
        invariant forall k | 0 <= k < i && goals[k].IsOpen() :: Overlap(goals[k].tags, tags) <= bestScore
        invariant forall k | 0 <= k < best && goals[k].IsOpen() :: Overlap(goals[k].tags, tags) < bestScore
      {
        if goals[i].IsOpen() {
          var overlap := Overlap(goals[i].tags, tags);
          if overlap > bestScore {
            bestScore := overlap;
            best := i;
          }
        }
      }
    }

    method RecordVerifiedProgressByTags(tags: set<string>) returns (credited: int)
      requires forall i, j | 0 <= i < j < |goals| :: goals[i] != goals[j]
      modifies goals
      ensures -1 <= credited < |goals| && goals == old(goals)
      ensures credited >= 0 ==> old(IsBest(credited, tags))
                                && goals[credited].Value() == Credit(old(goals[credited].Value()))
      ensures credited < 0 ==>
                forall k | 0 <= k < |goals| && old(goals[k].IsOpen()) :: Overlap(goals[k].tags, tags) == 0
      ensures forall k | 0 <= k < |goals| && k != credited :: goals[k].Value() == old(goals[k].Value())
    {
      credited := GetGoalForObjectiveTags(tags);
      if credited >= 0 {
        goals[credited].RecordVerifiedRun();
      }
    }
  }
}
