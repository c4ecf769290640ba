/**
 * The terminal's index of seen events: a set for look-up and a bounded queue that says what to
 * forget. A restored index starts from the event ids of the cached blocks.
 */
module SeenEvents {
  import opened Sequences

  const SEEN_CAP := 1500

  datatype Index = Index(seen: set<string>, order: seq<string>)

  // Ids leave from the old end until no more than the cap are left.
  function Forget(x: Index): Index
    decreases |x.order|
  {
    if |x.order| > SEEN_CAP then Forget(Index(x.seen - {x.order[0]}, x.order[1..])) else x
  }

  function Remember(x: Index, id: string): Index {
    Forget(Index(x.seen + {id}, x.order + [id]))
  }

  function RememberAll(x: Index, ids: seq<string>): Index
    decreases |ids|
  {
    if ids == [] then x else RememberAll(Remember(x, ids[0]), ids[1..])
  }

  // Every one of `ids` is new to the index when its turn comes.
  predicate Accepts(x: Index, ids: seq<string>)
    decreases |ids|
  {
    ids != [] ==> ids[0] !in x.seen && Accepts(Remember(x, ids[0]), ids[1..])
  }

  ghost predicate Agrees(x: Index) {
    x.seen == Elements(x.order)
  }

  ghost function Restored(ids: seq<string>): Index {
    Index(Elements(ids), ids)
  }

  lemma RememberDropsOne(x: Index, id: string)
    requires |x.order| <= SEEN_CAP
    ensures Remember(x, id) ==
            if |x.order| < SEEN_CAP then Index(x.seen + {id}, x.order + [id])
            else Index(x.seen + {id} - {x.order[0]}, x.order[1..] + [id])
    ensures Remember(x, id).order == Last(x.order + [id], SEEN_CAP)
  {
    if |x.order| == SEEN_CAP {
      assert (x.order + [id])[1..] == x.order[1..] + [id];
      var y := Index(x.seen + {id} - {x.order[0]}, x.order[1..] + [id]);
      assert Forget(y) == y;
    }
  }

  lemma RememberKeepsAgreement(x: Index, id: string)
    requires |x.order| <= SEEN_CAP && Agrees(x) && Distinct(x.order) && id !in x.seen
    ensures Agrees(Remember(x, id)) && Distinct(Remember(x, id).order)
  {
    RememberDropsOne(x, id);
    if |x.order| == SEEN_CAP {
      assert x.order == [x.order[0]] + x.order[1..];
      assert forall i | 0 <= i < |x.order| - 1 :: x.order[1..][i] == x.order[i + 1];
    }
  }

  lemma LastOfLast<T>(s: seq<T>, t: seq<T>, n: nat)
    ensures Last(Last(s, n) + t, n) == Last(s + t, n)
  {
  }

  /** Without repeated ids, the index holds the last 1500 accepted ids, in set and queue alike. */
  lemma {:induction false} DistinctIdsAgree(x: Index, ids: seq<string>)
    requires |x.order| <= SEEN_CAP && Agrees(x) && Distinct(x.order) && Accepts(x, ids)
    ensures var y := RememberAll(x, ids);
            Agrees(y) && Distinct(y.order) && y.order == Last(x.order + ids, 1500)
    decreases |ids|
  {
    if ids == [] {
      assert x.order + ids == x.order;
    } else {
      var x1 := Remember(x, ids[0]);
      RememberKeepsAgreement(x, ids[0]);
      RememberDropsOne(x, ids[0]);
      hide Remember, Distinct;
      DistinctIdsAgree(x1, ids[1..]);
      LastOfLast(x.order + [ids[0]], ids[1..], SEEN_CAP);
      assert x.order + ids == x.order + [ids[0]] + ids[1..];
    }
  }

  // Position p is the first whose id comes again later in the queue.
  ghost predicate RepeatsFirstAt(s: seq<string>, p: nat) {
    p < |s| && s[p] in s[p + 1..] && forall k | 0 <= k < p :: s[k] !in s[k + 1..]
  }

  lemma NewIdKeepsRepeat(s: seq<string>, id: string, p: nat)
    requires RepeatsFirstAt(s, p) && id !in s
    ensures RepeatsFirstAt(s + [id], p)
  {
    assert (s + [id])[p + 1..] == s[p + 1..] + [id];
    forall k | 0 <= k < p ensures (s + [id])[k] !in (s + [id])[k + 1..] {
      assert (s + [id])[k + 1..] == s[k + 1..] + [id];
    }
  }

  lemma DropMovesRepeat(s: seq<string>, p: nat)
    requires RepeatsFirstAt(s, p)
    ensures if p > 0 then RepeatsFirstAt(s[1..], p - 1) && Elements(s[1..]) == Elements(s) - {s[0]}
            else s[0] in s[1..]
  {
    if p > 0 {
      var t := s[1..];
      assert s == [s[0]] + t && s[0] !in t;
      assert t[p - 1] == s[p] && t[p..] == s[p + 1..];
      forall k | 0 <= k < p - 1 ensures t[k] !in t[k + 1..] {
        assert t[k] == s[k + 1] && t[k + 1..] == s[k + 2..];
      }
    }
  }

  lemma RememberMovesRepeat(x: Index, id: string, p: nat)
    requires |x.order| <= SEEN_CAP && Agrees(x) && RepeatsFirstAt(x.order, p) && id !in x.seen
    ensures var y := Remember(x, id);
            if |x.order| < SEEN_CAP then Agrees(y) && RepeatsFirstAt(y.order, p) && |y.order| == |x.order| + 1
            else |y.order| == SEEN_CAP && if p > 0 then Agrees(y) && RepeatsFirstAt(y.order, p - 1) else !Agrees(y)
  {
    hide RepeatsFirstAt, Remember;
    RememberDropsOne(x, id);
    var longer := x.order + [id];
    NewIdKeepsRepeat(x.order, id, p);
    DropMovesRepeat(longer, p);
    assert x.order != [] by { RepeatIsInside(x.order, p); }
    assert longer[1..] == x.order[1..] + [id] && longer[0] == x.order[0];
    assert Elements(longer) == x.seen + {id};
  }

  lemma RepeatIsInside(s: seq<string>, p: nat)
    requires RepeatsFirstAt(s, p)
    ensures p < |s|
  {
  }

  /** With a repeated id, set and queue part exactly when its first place is dropped. */
  lemma {:induction false} RepeatedIdBreaksExactly(x: Index, ids: seq<string>, p: nat)
    requires |x.order| <= SEEN_CAP && Agrees(x) && RepeatsFirstAt(x.order, p) && Accepts(x, ids)
    requires |x.order| + |ids| <= 1500 + p + 1
    ensures Agrees(RememberAll(x, ids)) <==> |x.order| + |ids| <= 1500 + p
    decreases |ids|
  {
    if ids != [] {
      hide Remember, Agrees, RepeatsFirstAt;
      RememberMovesRepeat(x, ids[0], p);
      if |x.order| < SEEN_CAP {
        RepeatedIdBreaksExactly(Remember(x, ids[0]), ids[1..], p);
      } else if p > 0 {
        RepeatedIdBreaksExactly(Remember(x, ids[0]), ids[1..], p - 1);
      } else {
        assert ids[1..] == [];
      }
    }
  }

  lemma {:induction false} FirstRepeat(s: seq<string>) returns (p: nat)
    requires !Distinct(s)
    ensures RepeatsFirstAt(s, p)
  {
    if s[0] in s[1..] {
      p := 0;
    } else {
      var t := s[1..];
      assert forall i | 0 <= i < |t| :: t[i] == s[i + 1];
      var q := FirstRepeat(t);
      p := q + 1;
      assert t[q + 1..] == s[p + 1..];
      forall k | 0 <= k < p ensures s[k] !in s[k + 1..] {
        if k > 0 { assert t[k - 1] == s[k] && t[k..] == s[k + 1..]; }
      }
    }
  }

  // ---- Ids nobody has seen -----------------------------------------------------------------

  function Filler(length: nat): (s: string)
    ensures |s| == length
  {
    seq(length, _ => 'x')
  }

  function Fillers(length: nat, count: nat): (ids: seq<string>)
    ensures |ids| == count
  {
    seq(count, i requires 0 <= i < count => Filler(length + i))
  }

  ghost function Longest(s: seq<string>): (n: nat)
    ensures forall x | x in s :: |x| <= n
  {
    if s == [] then 0
    else
      var n := Longest(s[1..]);
      if |s[0]| > n then |s[0]| else n
  }

  lemma FillersAreNew(s: seq<string>, length: nat, count: nat)
    requires Longest(s) < length
    ensures Distinct(Fillers(length, count)) && forall id | id in Fillers(length, count) :: id !in s && id != ""
  {
    var ids := Fillers(length, count);
    forall i | 0 <= i < count ensures |ids[i]| == length + i {
      assert ids[i] == Filler(length + i);
    }
  }

  lemma {:induction false} NewIdsAreAccepted(x: Index, ids: seq<string>)
    requires |x.order| <= SEEN_CAP && Distinct(ids) && forall id | id in ids :: id !in x.seen
    ensures Accepts(x, ids)
    decreases |ids|
  {
    if ids != [] {
      RememberDropsOne(x, ids[0]);
      assert forall i | 0 <= i < |ids| - 1 :: ids[1..][i] == ids[i + 1];
      hide Remember;
      NewIdsAreAccepted(Remember(x, ids[0]), ids[1..]);
    }
  }

  lemma NewToRestored(ids: seq<string>, count: nat) returns (more: seq<string>)
    requires |ids| <= SEEN_CAP
    ensures |more| == count && Accepts(Restored(ids), more)
  {
    var length := Longest(ids) + 1;
    more := Fillers(length, count);
    hide Longest, Fillers, Accepts;
    FillersAreNew(ids, length, count);
    NewIdsAreAccepted(Restored(ids), more);
  }

  /** A restored index with a repeated id, and new events that make its set lose an id. */
  lemma RepeatedRestoreBreaks(ids: seq<string>) returns (more: seq<string>)
    requires |ids| <= SEEN_CAP && !Distinct(ids)
    ensures Accepts(Restored(ids), more) && !Agrees(RememberAll(Restored(ids), more))
  {
    var p := FirstRepeat(ids);
    RepeatIsInside(ids, p);
    hide RememberAll, Accepts, RepeatsFirstAt, Distinct;
    more := NewToRestored(ids, SEEN_CAP + p + 1 - |ids|);
    assert Agrees(Restored(ids));
    hide Agrees, Elements;
    RepeatedIdBreaksExactly(Restored(ids), more, p);
  }

  /**
   * A restored index is sound for good if and only if the restored ids are distinct: with a
   * repeated id, enough new events make the set lose an id the queue still holds.
   */
  lemma RestoreIsSoundExactly(ids: seq<string>)
    requires |ids| <= SEEN_CAP
    ensures (forall more | Accepts(Restored(ids), more) :: Agrees(RememberAll(Restored(ids), more)))
            <==> Distinct(ids)
  {
    hide RememberAll, Accepts, Distinct;
    if Distinct(ids) {
      forall more | Accepts(Restored(ids), more) ensures Agrees(RememberAll(Restored(ids), more)) {
        DistinctIdsAgree(Restored(ids), more);
      }
    } else {
      var more := RepeatedRestoreBreaks(ids);
    }
  }
}
