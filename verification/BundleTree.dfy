/** A diagnostics bundle as a tree of nodes, with the atomic steps the scripts use. */
module BundleTree {
  import opened Text
  import opened Artifacts

  datatype Node = Directory | File(lines: seq<string>) | Special

  type Tree = map<Path, Node>

  function At(t: Tree, p: Path): Option<Node> {
    if p in t then Some(t[p]) else None
  }

  predicate IsDirectory(t: Tree, p: Path) { p in t && t[p].Directory? }

  predicate AbsentOrDirectory(t: Tree, p: Path) { p !in t || t[p].Directory? }

  /** Neither path contains the other. */
  predicate Apart(a: Path, b: Path) { !(a <= b) && !(b <= a) }

  /** Every node sits in a directory. */
  ghost predicate Rooted(t: Tree) {
    forall p :: p in t && |p| > 1 ==> IsDirectory(t, p[..|p| - 1])
  }

  /** The two subtrees hold the same nodes. */
  ghost predicate SameContents(t: Tree, root: Path, t': Tree, root': Path) {
    forall q: Path :: At(t, root + q) == At(t', root' + q)
  }

  function Origin(p: Path, source: Path, target: Path): Path {
    if target <= p then source + p[|target|..] else p
  }

  function MovedKeys(t: Tree, source: Path, target: Path): (keys: set<Path>)
    ensures forall p :: p in keys ==> Origin(p, source, target) in t
  {
    var kept := set p | p in t && !(source <= p) && !(target <= p);
    var moved := set p | p in t && source <= p :: target + p[|source|..];
    assert forall p :: p in t && source <= p ==>
        (target + p[|source|..])[|target|..] == p[|source|..] && source + p[|source|..] == p;
    kept + moved
  }

  /** rename(2) of a whole subtree onto a path that does not exist. */
  function Move(t: Tree, source: Path, target: Path): Tree {
    map p | p in MovedKeys(t, source, target) :: t[Origin(p, source, target)]
  }

  lemma MoveAt(t: Tree, source: Path, target: Path, p: Path)
    requires Apart(source, target)
    ensures At(Move(t, source, target), p) ==
            if target <= p then At(t, source + p[|target|..])
            else if source <= p then None
            else At(t, p)
  {
    if target <= p && source + p[|target|..] in t {
      var o := source + p[|target|..];
      assert source <= o && o[|source|..] == p[|target|..] && target + o[|source|..] == p;
    }
    if !(target <= p) && source <= p {
      assert forall o :: o in t && source <= o ==> target <= target + o[|source|..];
    }
  }

  lemma MoveKeepsContents(t: Tree, source: Path, target: Path)
    requires Apart(source, target)
    ensures SameContents(Move(t, source, target), target, t, source)
    ensures forall q: Path :: source + q !in Move(t, source, target)
  {
    forall q: Path
      ensures At(Move(t, source, target), target + q) == At(t, source + q)
      ensures source + q !in Move(t, source, target)
    {
      MoveAt(t, source, target, target + q);
      assert (target + q)[|target|..] == q;
      MoveAt(t, source, target, source + q);
      PrefixesAreComparable(source, target, source + q);
    }
  }

  lemma PrefixesAreComparable(a: Path, b: Path, p: Path)
    ensures a <= p && b <= p ==> a <= b || b <= a
  {
    if a <= p && b <= p && |a| <= |b| { assert a == p[..|a|] && b == p[..|b|]; }
  }

  /** Subtrees apart from both ends of a move keep their nodes. */
  lemma MoveKeepsOthers(t: Tree, source: Path, target: Path, p: Path)
    requires Apart(source, target) && !(source <= p) && !(target <= p)
    ensures At(Move(t, source, target), p) == At(t, p)
  {
    MoveAt(t, source, target, p);
  }

  lemma NothingBelowAbsent(t: Tree, p: Path, q: Path)
    requires Rooted(t) && p !in t && |p| > 0 && p <= q
    ensures q !in t
    decreases |q|
  {
    if |q| == |p| {
      assert q == p;
    } else if q in t {
      assert p <= q[..|q| - 1];
      NothingBelowAbsent(t, p, q[..|q| - 1]);
    }
  }

  // Facts about path prefixes.

  lemma PrefixIsTransitive(a: Path, b: Path, c: Path)
    ensures a <= b && b <= c ==> a <= c
  {
  }

  lemma PrefixComponents(a: Path, b: Path)
    ensures a <= b ==> |a| <= |b| && forall i :: 0 <= i < |a| ==> a[i] == b[i]
    ensures a <= b && |a| == |b| ==> a == b
  {
  }

  lemma PrefixOfRest(a: Path, b: Path, k: nat)
    requires k <= |a| && k <= |b|
    ensures a <= b ==> a[k..] <= b[k..]
  {
  }
}
