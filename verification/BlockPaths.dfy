/**
  Blocks and where they are (core/parser/diff.go, flattenBlocks): a block list lists the block at every index path of
  the forest once, a block before what is below it, and that before its next sibling.
 */
module BlockPaths {
  datatype Block = Block(id: string, rawType: string, name: string, indent: int, properties: map<string, string>,
      children: seq<Block>)

  /** Structural equality: everything but the identifier and the children. */
  predicate BlocksEqual(a: Block, b: Block) {
    a.rawType == b.rawType && a.name == b.name && a.indent == b.indent && a.properties == b.properties
  }

  /** `flattenBlocks`: a block list with all descendants, in document order. */
  function Flatten(blocks: seq<Block>): seq<Block> {
    if blocks == [] then [] else [blocks[0]] + Flatten(blocks[0].children) + Flatten(blocks[1..])
  }

  // ----- Paths -----

  /** A position among the roots, then among the children, and so on. */
  type Path = seq<nat>

  predicate HasPath(blocks: seq<Block>, p: Path) {
    p != [] && p[0] < |blocks| && (|p| == 1 || HasPath(blocks[p[0]].children, p[1..]))
  }

  function At(blocks: seq<Block>, p: Path): Block
    requires HasPath(blocks, p)
  {
    if |p| == 1 then blocks[p[0]] else At(blocks[p[0]].children, p[1..])
  }

  /** `p` leads above `q`, or to the left of it where they part. */
  predicate Before(p: Path, q: Path) {
    q != [] && (p == [] || p[0] < q[0] || (p[0] == q[0] && Before(p[1..], q[1..])))
  }

  /** The paths in document order, from the `i`-th root on. */
  function PathsFrom(blocks: seq<Block>, i: nat): seq<Path>
    requires i <= |blocks|
    decreases blocks, |blocks| - i
  {
    if i == |blocks| then [] else [[i]] + Under(i, PathsFrom(blocks[i].children, 0)) + PathsFrom(blocks, i + 1)
  }

  function Under(i: nat, paths: seq<Path>): seq<Path> {
    seq(|paths|, k requires 0 <= k < |paths| => [i] + paths[k])
  }

  /** `list` holds the block at every path from the `i`-th root on, once, and in document order. */
  ghost predicate Lists(blocks: seq<Block>, i: nat, paths: seq<Path>, list: seq<Block>) {
    && |paths| == |list|
    && (forall k :: 0 <= k < |paths| ==>
          HasPath(blocks, paths[k]) && i <= paths[k][0] && list[k] == At(blocks, paths[k]))
    && (forall j, k :: 0 <= j < k < |paths| ==> Before(paths[j], paths[k]))
    && (forall p :: HasPath(blocks, p) && i <= p[0] ==> p in paths)
  }

  lemma {:induction false} NotBeforeItself(p: Path)
    ensures !Before(p, p)
  {
    if p != [] { NotBeforeItself(p[1..]); }
  }

  lemma Deeper(blocks: seq<Block>, i: nat, p: Path)
    requires i < |blocks|
    ensures HasPath(blocks, [i]) && At(blocks, [i]) == blocks[i]
    ensures HasPath(blocks[i].children, p) ==>
              HasPath(blocks, [i] + p) && At(blocks, [i] + p) == At(blocks[i].children, p)
    ensures HasPath(blocks, p) && p[0] == i ==> p == [i] || (HasPath(blocks[i].children, p[1..]) && p == [i] + p[1..])
  {
    assert ([i] + p)[1..] == p;
  }

  lemma BeforeDeeper(i: nat, p: Path, q: Path)
    ensures Before([i] + p, [i] + q) <==> Before(p, q)
    ensures p != [] ==> Before([i], [i] + p)
  {
    assert ([i] + p)[1..] == p && ([i] + q)[1..] == q && [i][1..] == [];
  }

  /** `list` holds the `i`-th root and everything below it. */
  ghost predicate TreeLists(blocks: seq<Block>, i: nat, paths: seq<Path>, list: seq<Block>) {
    && |paths| == |list|
    && (forall k :: 0 <= k < |paths| ==>
          HasPath(blocks, paths[k]) && paths[k][0] == i && list[k] == At(blocks, paths[k]))
    && (forall j, k :: 0 <= j < k < |paths| ==> Before(paths[j], paths[k]))
    && (forall p :: HasPath(blocks, p) && p[0] == i ==> p in paths)
  }

  lemma TreeAt(blocks: seq<Block>, i: nat, below: seq<Path>, list: seq<Block>, k: nat)
    requires |below| == |list| && k <= |below| && i < |blocks|
    ensures ([[i]] + Under(i, below))[k] == if k == 0 then [i] else [i] + below[k - 1]
    ensures ([blocks[i]] + list)[k] == if k == 0 then blocks[i] else list[k - 1]
  {
  }

  lemma ChildPath(blocks: seq<Block>, i: nat, below: seq<Path>, list: seq<Block>, k: nat)
    requires i < |blocks| && Lists(blocks[i].children, 0, below, list) && k < |below|
    ensures HasPath(blocks, [i] + below[k]) && At(blocks, [i] + below[k]) == list[k]
  {
    hide HasPath, At, Before;
    Deeper(blocks, i, below[k]);
  }

  lemma TreePaths(blocks: seq<Block>, i: nat, below: seq<Path>, list: seq<Block>)
    requires i < |blocks| && Lists(blocks[i].children, 0, below, list)
    ensures var paths, more := [[i]] + Under(i, below), [blocks[i]] + list;
            forall k :: 0 <= k < |paths| ==>
              HasPath(blocks, paths[k]) && paths[k][0] == i && more[k] == At(blocks, paths[k])
  {
    assert |below| == |list|;
    hide HasPath, At, Before, Lists;
    var paths, more := [[i]] + Under(i, below), [blocks[i]] + list;
    forall k | 0 <= k < |paths|
      ensures HasPath(blocks, paths[k]) && paths[k][0] == i && more[k] == At(blocks, paths[k])
    {
      TreeAt(blocks, i, below, list, k);
      if k == 0 {
        Deeper(blocks, i, []);
      } else {
        ChildPath(blocks, i, below, list, k - 1);
      }
    }
  }

  lemma TreeOrdered(blocks: seq<Block>, i: nat, below: seq<Path>, list: seq<Block>)
    requires i < |blocks| && Lists(blocks[i].children, 0, below, list)
    ensures var paths := [[i]] + Under(i, below);
            forall j, k :: 0 <= j < k < |paths| ==> Before(paths[j], paths[k])
  {
    hide HasPath, At, Before;
    var paths := [[i]] + Under(i, below);
    forall j, k | 0 <= j < k < |paths| ensures Before(paths[j], paths[k]) {
      RootNotEmpty(blocks[i].children, below[k - 1]);
      BeforeDeeper(i, if j == 0 then below[k - 1] else below[j - 1], below[k - 1]);
    }
  }

  lemma TreeListed(blocks: seq<Block>, i: nat, below: seq<Path>, list: seq<Block>)
    requires i < |blocks| && Lists(blocks[i].children, 0, below, list)
    ensures TreeLists(blocks, i, [[i]] + Under(i, below), [blocks[i]] + list)
  {
    hide HasPath, At, Before;
    var paths := [[i]] + Under(i, below);
    TreePaths(blocks, i, below, list);
    TreeOrdered(blocks, i, below, list);
    forall p | HasPath(blocks, p) ensures p != [] && (p[0] == i ==> p in paths) {
      RootNotEmpty(blocks, p);
      Deeper(blocks, i, p);
      if p == [i] {
        assert p == paths[0];
      } else if p[0] == i {
        RootNotEmpty(blocks[i].children, p[1..]);
        var k :| 0 <= k < |below| && below[k] == p[1..];
        assert paths[k + 1] == p;
      }
    }
  }

  lemma RootNotEmpty(blocks: seq<Block>, p: Path)
    ensures HasPath(blocks, p) ==> p != [] && p[0] < |blocks|
  {}

  lemma EarlierRoot(p: Path, q: Path)
    requires p != [] && q != [] && p[0] < q[0]
    ensures Before(p, q)
  {}

  lemma ListsJoin(
    blocks: seq<Block>, i: nat, tree: seq<Path>, found: seq<Block>, paths: seq<Path>, list: seq<Block>)
    requires i < |blocks| && TreeLists(blocks, i, tree, found) && Lists(blocks, i + 1, paths, list)
    ensures Lists(blocks, i, tree + paths, found + list)
  {
    hide HasPath, At, Before;
    var all := tree + paths;
    forall j, k | 0 <= j < k < |all| ensures Before(all[j], all[k]) {
      if j < |tree| <= k {
        RootNotEmpty(blocks, all[j]);
        RootNotEmpty(blocks, all[k]);
        EarlierRoot(all[j], all[k]);
      }
    }
  }

  /** What the list is. */
  lemma {:induction false} FlattenLists(blocks: seq<Block>, i: nat)
    requires i <= |blocks|
    ensures Lists(blocks, i, PathsFrom(blocks, i), Flatten(blocks[i..]))
    decreases blocks, |blocks| - i
  {
    if i < |blocks| {
      var below, list := PathsFrom(blocks[i].children, 0), Flatten(blocks[i].children);
      FlattenLists(blocks[i].children, 0);
      assert blocks[i].children[0..] == blocks[i].children;
      TreeListed(blocks, i, below, list);
      FlattenLists(blocks, i + 1);
      assert blocks[i..][1..] == blocks[i + 1..];
      var later, rest := PathsFrom(blocks, i + 1), Flatten(blocks[i + 1..]);
      ListsJoin(blocks, i, [[i]] + Under(i, below), [blocks[i]] + list, later, rest);
      hide Lists, TreeLists, HasPath, At, Before;
    }
  }

  /** Every block is listed exactly once, at the place its path has in document order. */
  lemma FlattenMeaning(blocks: seq<Block>)
    ensures Lists(blocks, 0, PathsFrom(blocks, 0), Flatten(blocks))
    ensures var paths := PathsFrom(blocks, 0); forall j, k :: 0 <= j < k < |paths| ==> paths[j] != paths[k]
  {
    hide HasPath, At, Before;
    FlattenLists(blocks, 0);
    assert blocks[0..] == blocks;
    var paths := PathsFrom(blocks, 0);
    forall j, k | 0 <= j < k < |paths| ensures paths[j] != paths[k] {
      NotBeforeItself(paths[j]);
    }
  }

  // ----- Two forests of one shape -----

  predicate SameShape(a: seq<Block>, b: seq<Block>) {
    |a| == |b| && forall i :: 0 <= i < |a| ==> SameShape(a[i].children, b[i].children)
  }

  lemma {:induction false} ShapePaths(a: seq<Block>, b: seq<Block>, i: nat)
    requires SameShape(a, b) && i <= |a|
    ensures PathsFrom(a, i) == PathsFrom(b, i)
    decreases a, |a| - i
  {
    if i < |a| {
      ShapePaths(a[i].children, b[i].children, 0);
      ShapePaths(a, b, i + 1);
    }
  }

  /** Both have a block at `p`, and the two are equal. */
  predicate AgreeAt(a: seq<Block>, b: seq<Block>, p: Path) {
    HasPath(a, p) && HasPath(b, p) && BlocksEqual(At(a, p), At(b, p))
  }

  /** One list of paths for two lists of blocks. */
  lemma ListedTogether(a: seq<Block>, b: seq<Block>, paths: seq<Path>, x: seq<Block>, y: seq<Block>)
    requires Lists(a, 0, paths, x) && Lists(b, 0, paths, y)
    ensures |x| == |y| == |paths|
    ensures forall k :: 0 <= k < |paths| ==>
              HasPath(a, paths[k]) && (AgreeAt(a, b, paths[k]) <==> BlocksEqual(x[k], y[k]))
    ensures forall p :: HasPath(a, p) ==> p in paths
  {
    hide HasPath, At, Before, BlocksEqual;
    forall p | HasPath(a, p) ensures p in paths {
      RootNotEmpty(a, p);
    }
  }

  /** The lists are equal block by block exactly when the forests agree at every path. */
  lemma AgreeEverywhere(a: seq<Block>, b: seq<Block>)
    requires SameShape(a, b)
    ensures var x, y := Flatten(a), Flatten(b);
            && |x| == |y|
            && ((forall k :: 0 <= k < |x| ==> BlocksEqual(x[k], y[k])) <==>
                forall p :: HasPath(a, p) ==> AgreeAt(a, b, p))
  {
    hide HasPath, At, Before, BlocksEqual, AgreeAt, Lists, Flatten, PathsFrom, SameShape;
    FlattenMeaning(a);
    FlattenMeaning(b);
    ShapePaths(a, b, 0);
    var x, y, paths := Flatten(a), Flatten(b), PathsFrom(a, 0);
    ListedTogether(a, b, paths, x, y);
    if forall k :: 0 <= k < |x| ==> BlocksEqual(x[k], y[k]) {
      forall p | HasPath(a, p) ensures AgreeAt(a, b, p) {
        var k :| 0 <= k < |paths| && paths[k] == p;
        assert BlocksEqual(x[k], y[k]);
      }
    }
    if forall p :: HasPath(a, p) ==> AgreeAt(a, b, p) {
      forall k | 0 <= k < |x| ensures BlocksEqual(x[k], y[k]) {
        assert HasPath(a, paths[k]);
      }
    }
  }

  function Leaf(name: string): Block {
    Block("", "", name, 0, map[], [])
  }

  /** The list does not tell a child from a next sibling: moving a block out of the one before it goes unnoticed as
      long as its indentation is kept. */
  lemma NestingIsNotListed(outer: string, inner: string)
    ensures var nested, apart := [Leaf(outer).(children := [Leaf(inner)])], [Leaf(outer), Leaf(inner)];
            var x, y := Flatten(nested), Flatten(apart);
            !SameShape(nested, apart) && |x| == |y| && forall k :: 0 <= k < |x| ==> BlocksEqual(x[k], y[k])
  {
    assert [Leaf(outer), Leaf(inner)][1..] == [Leaf(inner)];
  }
}
