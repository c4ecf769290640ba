/** The demo task pool: shuffled in place, drawn in rounds. */
module TaskGenerator {
  import opened Sequences

  // A pool entry; only its agent ever changes.
  datatype Entry = Entry(key: int, agent: string)

  // One outcome of the random draws of a shuffle of the first n places: for place i, an index up to i.
  predicate AreDraws(draws: seq<nat>, n: nat) {
    |draws| == n && forall i | 0 <= i < n :: draws[i] <= i
  }

  function Swap<T>(s: seq<T>, i: nat, j: nat): seq<T>
    requires i < |s| && j < |s|
  {
    s[i := s[j]][j := s[i]]
  }

  // The downward loop from place n - 1 on.
  function Shuffle<T>(s: seq<T>, n: nat, draws: seq<nat>): (r: seq<T>)
    requires n <= |s| && AreDraws(draws, n)
    ensures |r| == |s|
    decreases n
  {
    if n <= 1 then s else Shuffle(Swap(s, n - 1, draws[n - 1]), n - 1, draws[..n - 1])
  }

  lemma SwapKeepsMultiset<T>(s: seq<T>, i: nat, j: nat)
    requires i < |s| && j < |s|
    ensures multiset(Swap(s, i, j)) == multiset(s)
  {
  }

  /** Any draws keep the pool, and leave the places from n on alone. */
  lemma {:induction false} ShuffleKeepsMultiset<T>(s: seq<T>, n: nat, draws: seq<nat>)
    requires n <= |s| && AreDraws(draws, n)
    ensures multiset(Shuffle(s, n, draws)) == multiset(s)
    ensures Shuffle(s, n, draws)[n..] == s[n..]
    decreases n
  {
    if n > 1 {
      var s' := Swap(s, n - 1, draws[n - 1]);
      SwapKeepsMultiset(s, n - 1, draws[n - 1]);
      ShuffleKeepsMultiset(s', n - 1, draws[..n - 1]);
      assert Shuffle(s, n, draws)[n..] == Shuffle(s, n, draws)[n - 1..][1..];
      assert s'[n - 1..][1..] == s'[n..];
    }
  }

  lemma DropLast<T>(a: seq<T>, b: seq<T>, p: seq<T>, q: seq<T>, x: T)
    requires a == p + [x] && b == q + [x] && multiset(a) == multiset(b)
    ensures multiset(p) == multiset(q)
  {
    assert multiset(p) == multiset(a) - multiset{x};
    assert multiset(q) == multiset(b) - multiset{x};
  }

  lemma Find<T>(x: T, a: seq<T>, b: seq<T>) returns (j: nat)
    requires x in b && multiset(a) == multiset(b)
    ensures j < |a| && a[j] == x
  {
    assert x in multiset(a);
    j :| j < |a| && a[j] == x;
  }

  // The draw that brings t's entry into place n - 1.
  lemma LastDraw<T>(s: seq<T>, t: seq<T>, n: nat) returns (j: nat)
    requires 0 < n <= |s| == |t| && s[n..] == t[n..] && multiset(s[..n]) == multiset(t[..n])
    ensures j < n
    ensures Swap(s, n - 1, j)[n - 1..] == t[n - 1..]
    ensures multiset(Swap(s, n - 1, j)[..n - 1]) == multiset(t[..n - 1])
  {
    var a, b := s[..n], t[..n];
    j := Find(b[n - 1], a, b);
    SwapKeepsMultiset(a, n - 1, j);
    var s' := Swap(s, n - 1, j);
    assert s'[..n] == Swap(a, n - 1, j);
    assert s'[n - 1] == t[n - 1];
    assert s'[n..] == s[n..];
    assert s'[n - 1..] == [s'[n - 1]] + s'[n..];
    assert t[n - 1..] == [t[n - 1]] + t[n..];
    DropLast(s'[..n], b, s'[..n - 1], t[..n - 1], t[n - 1]);
  }

  /** Every arrangement of the first n places comes from some draws. */
  lemma {:induction false} EveryArrangementIsDrawn<T>(s: seq<T>, t: seq<T>, n: nat) returns (draws: seq<nat>)
    requires n <= |s| == |t| && s[n..] == t[n..] && multiset(s[..n]) == multiset(t[..n])
    ensures AreDraws(draws, n) && Shuffle(s, n, draws) == t
    decreases n
  {
    if n == 0 {
      draws := [];
      assert s == s[0..] && t == t[0..];
    } else {
      var j := LastDraw(s, t, n);
      var rest := EveryArrangementIsDrawn(Swap(s, n - 1, j), t, n - 1);
      draws := rest + [j];
      assert draws[..n - 1] == rest;
    }
  }

  /** And of a pool without repeats, from only one: every arrangement is equally likely. */
  lemma {:induction false} DrawsAreUnique<T(!new)>(s: seq<T>, n: nat, a: seq<nat>, b: seq<nat>)
    requires n <= |s| && AreDraws(a, n) && AreDraws(b, n) && Distinct(s)
    requires Shuffle(s, n, a) == Shuffle(s, n, b)
    ensures a == b
    decreases n
  {
    if n == 1 {
      assert a == [0] && b == [0];
    } else if n > 1 {
      var i, j := a[n - 1], b[n - 1];
      var x, y := Swap(s, n - 1, i), Swap(s, n - 1, j);
      LastIsDrawn(s, n, a);
      LastIsDrawn(s, n, b);
      assert i == j;
      assert Distinct(x);
      DrawsAreUnique(x, n - 1, a[..n - 1], b[..n - 1]);
      assert a == a[..n - 1] + [i] && b == b[..n - 1] + [j];
    }
  }

  lemma LastIsDrawn<T>(s: seq<T>, n: nat, draws: seq<nat>)
    requires 1 < n <= |s| && AreDraws(draws, n)
    ensures Shuffle(s, n, draws)[n - 1] == s[draws[n - 1]]
  {
    var s' := Swap(s, n - 1, draws[n - 1]);
    ShuffleKeepsMultiset(s', n - 1, draws[..n - 1]);
    assert Shuffle(s, n, draws)[n - 1..][0] == s'[n - 1..][0];
  }

  function Keys(s: seq<Entry>): (keys: seq<int>)
    ensures |keys| == |s|
  {
    seq(|s|, i requires 0 <= i < |s| => s[i].key)
  }

  lemma {:induction false} KeysOfShuffle(s: seq<Entry>, n: nat, draws: seq<nat>)
    requires n <= |s| && AreDraws(draws, n)
    ensures Keys(Shuffle(s, n, draws)) == Shuffle(Keys(s), n, draws)
    decreases n
  {
    if n > 1 {
      var s' := Swap(s, n - 1, draws[n - 1]);
      KeysOfShuffle(s', n - 1, draws[..n - 1]);
      assert Keys(s') == Swap(Keys(s), n - 1, draws[n - 1]);
    }
  }

  class TaskGenerator {
    const allTasks: array<Entry>
    var taskIndex: nat
    ghost const pool: multiset<int>
    ghost var rounds: seq<seq<int>>

    // Every finished round drew exactly the pool; the current one drew what lies before the index.
    ghost predicate Valid()
      reads this, allTasks
    {
      && taskIndex < allTasks.Length
      && multiset(Keys(allTasks[..])) == pool
      && forall r | r in rounds :: multiset(r) == pool
    }

    ghost function Drawn(): seq<int>
      reads this, allTasks
      requires Valid()
    {
      Keys(allTasks[..taskIndex])
    }

    constructor (tasks: seq<Entry>, draws: seq<nat>)
      requires tasks != [] && AreDraws(draws, |tasks|)
      ensures Valid() && Drawn() == [] && rounds == [] && pool == multiset(Keys(tasks)) && fresh(allTasks)
    {
      allTasks := new Entry[|tasks|](i requires 0 <= i < |tasks| => tasks[i]);
      taskIndex, rounds, pool := 0, [], multiset(Keys(tasks));
      new;
      assert allTasks[..] == tasks;
      ShuffleTasks(draws);
      KeysOfShuffle(tasks, |tasks|, draws);
      ShuffleKeepsMultiset(Keys(tasks), |tasks|, draws);
    }

    method ShuffleTasks(draws: seq<nat>)
      requires AreDraws(draws, allTasks.Length)
      modifies allTasks
      ensures allTasks[..] == Shuffle(old(allTasks[..]), allTasks.Length, draws)
    {
      var i := allTasks.Length;
      assert draws[..i] == draws;
      while i > 1
        invariant 0 <= i <= allTasks.Length
        invariant Shuffle(allTasks[..], i, draws[..i]) == Shuffle(old(allTasks[..]), allTasks.Length, draws)
      {
        i := i - 1;
        ghost var was := allTasks[..];
        var j := draws[i];
        allTasks[i], allTasks[j] := allTasks[j], allTasks[i];
        assert allTasks[..] == Swap(was, i, j);
        assert draws[..i + 1][..i] == draws[..i];
      }
    }

    // The record handed out keeps its new agent wherever the shuffle moves it.
    method GetNextTask(agent: string, draws: seq<nat>) returns (task: Entry)
      requires Valid() && AreDraws(draws, allTasks.Length)
      modifies this, allTasks
      ensures Valid()
      ensures task == old(allTasks[taskIndex]).(agent := agent)
      ensures var served := old(allTasks[..])[old(taskIndex) := task];
              allTasks[..] == if old(taskIndex) + 1 < allTasks.Length then served
                              else Shuffle(served, allTasks.Length, draws)
      ensures if old(taskIndex) + 1 < allTasks.Length
              then rounds == old(rounds) && Drawn() == old(Drawn()) + [task.key]
              else rounds == old(rounds) + [old(Drawn()) + [task.key]] && Drawn() == []
    {
      ghost var before := allTasks[..];
      allTasks[taskIndex] := allTasks[taskIndex].(agent := agent);
      task := allTasks[taskIndex];
      assert Keys(allTasks[..]) == Keys(before);
      taskIndex := taskIndex + 1;
      assert Keys(allTasks[..taskIndex]) == Keys(before[..taskIndex - 1]) + [task.key];
      if taskIndex == allTasks.Length {
        assert allTasks[..taskIndex] == allTasks[..];
        rounds := rounds + [Keys(allTasks[..])];
        ghost var full := allTasks[..];
        taskIndex := 0;
        ShuffleTasks(draws);
        KeysOfShuffle(full, allTasks.Length, draws);
        ShuffleKeepsMultiset(Keys(full), allTasks.Length, draws);
      }
    }
  }
}
