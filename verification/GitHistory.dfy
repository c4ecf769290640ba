/**
 * Git commits with ideal object names: a commit value stands for its own hash, so two
 * commits are equal exactly when they are byte-identical (same parents, tree and text).
 */
module GitHistory {
  import opened Options

  type Tree = string

  datatype Meta = Meta(message: string, author: string, committer: string, seconds: int)

  datatype Commit = Commit(parents: seq<Commit>, tree: Tree, meta: Meta)

  // `c` is `tip` or one of its ancestors.
  predicate Reaches(tip: Commit, c: Commit) {
    tip == c || exists p | p in tip.parents :: Reaches(p, c)
  }

  // The trees of `tip` and all its ancestors.
  ghost function Trees(tip: Commit): set<Tree> {
    {tip.tree} + set p, t | p in tip.parents && t in Trees(p) :: t
  }

  ghost function Height(c: Commit): nat {
    1 + MaxHeight(c.parents)
  }

  ghost function MaxHeight(cs: seq<Commit>): (h: nat)
    ensures forall c | c in cs :: Height(c) <= h
  {
    if cs == [] then 0
    else
      var h, k := Height(cs[0]), MaxHeight(cs[1..]);
      if h < k then k else h
  }

  // The first commit carrying `tree` in a walk from `tip` towards the roots.
  function FindByTree(tip: Commit, tree: Tree): Option<Commit>
    decreases tip, 1
  {
    if tip.tree == tree then Some(tip) else FindAmong(tip.parents, tree)
  }

  function FindAmong(cs: seq<Commit>, tree: Tree): Option<Commit>
    decreases cs, 0
  {
    if cs == [] then None
    else
      var found := FindByTree(cs[0], tree);
      if found.Some? then found else FindAmong(cs[1..], tree)
  }

  lemma {:induction false} FindByTreeIsExact(tip: Commit, tree: Tree)
    ensures FindByTree(tip, tree).Some? <==> tree in Trees(tip)
    ensures FindByTree(tip, tree).Some? ==>
              var c := FindByTree(tip, tree).value; c.tree == tree && Reaches(tip, c)
    decreases tip, 1
  {
    if tip.tree != tree {
      FindAmongIsExact(tip.parents, tree);
    }
  }

  lemma {:induction false} FindAmongIsExact(cs: seq<Commit>, tree: Tree)
    ensures FindAmong(cs, tree).Some? <==> exists p | p in cs :: tree in Trees(p)
    ensures FindAmong(cs, tree).Some? ==>
              var c := FindAmong(cs, tree).value; c.tree == tree && exists p | p in cs :: Reaches(p, c)
    decreases cs, 0
  {
    if cs != [] {
      FindByTreeIsExact(cs[0], tree);
      FindAmongIsExact(cs[1..], tree);
    }
  }

  lemma {:induction false} ReachesIsTransitive(a: Commit, b: Commit, c: Commit)
    requires Reaches(a, b) && Reaches(b, c)
    ensures Reaches(a, c)
  {
    if a != b {
      var p :| p in a.parents && Reaches(p, b);
      ReachesIsTransitive(p, b, c);
    }
  }

  lemma {:induction false} AncestorsAreLower(a: Commit, b: Commit)
    requires Reaches(a, b) && a != b
    ensures Height(b) < Height(a)
  {
    var p :| p in a.parents && Reaches(p, b);
    if p != b {
      AncestorsAreLower(p, b);
    }
  }

  // Histories have no cycles.
  lemma ReachesIsAntisymmetric(a: Commit, b: Commit)
    requires Reaches(a, b) && Reaches(b, a)
    ensures a == b
  {
    if a != b {
      AncestorsAreLower(a, b);
      AncestorsAreLower(b, a);
    }
  }

  lemma {:induction false} AncestorTrees(a: Commit, b: Commit)
    requires Reaches(a, b)
    ensures Trees(b) <= Trees(a)
    ensures b.tree in Trees(a)
  {
    if a != b {
      var p :| p in a.parents && Reaches(p, b);
      AncestorTrees(p, b);
    }
  }
}
