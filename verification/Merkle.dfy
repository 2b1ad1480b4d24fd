/**
 The Merkle tree of a block, kept as one flat array of levels: CBlock::BuildMerkleTree,
 GetMerkleBranch and CheckMerkleBranch over an arbitrary two-argument hash.
 */
module Merkle {
  import opened Sequences
  import opened Positional

  type Hash2 = (nat, nat) -> nat

  /** Node `k` of the level above `s`: two neighbours, or an odd last one with itself. */
  function Pair(h: Hash2, s: seq<nat>, k: nat): nat
    requires 2 * k < |s|
  {
    h(s[2 * k], s[if 2 * k + 1 < |s| then 2 * k + 1 else 2 * k])
  }

  /** The level above `s`. */
  function Level(h: Hash2, s: seq<nat>): (r: seq<nat>)
    ensures |r| == (|s| + 1) / 2
    ensures forall k :: 0 <= k < |r| ==> r[k] == Pair(h, s, k)
  {
    seq((|s| + 1) / 2, k requires 0 <= k < (|s| + 1) / 2 => Pair(h, s, k))
  }

  /** The root a level leads to; 0 for no leaves. */
  function Root(h: Hash2, s: seq<nat>): nat
    decreases |s|
  {
    if s == [] then 0 else if |s| == 1 then s[0] else Root(h, Level(h, s))
  }

  /** All levels from `s` up, one after the other. */
  function Flat(h: Hash2, s: seq<nat>): seq<nat>
    decreases |s|
  {
    if |s| <= 1 then s else s + Flat(h, Level(h, s))
  }

  lemma FlatUnfolds(h: Hash2, s: seq<nat>)
    ensures Flat(h, s) == if |s| <= 1 then s else s + Flat(h, Level(h, s))
  {
  }

  function Sibling(i: nat, size: nat): (j: nat)
    requires size > 0
    ensures j < size
  {
    var x := if i % 2 == 0 then i + 1 else i - 1;
    if x < size then x else size - 1
  }

  /** The siblings on the way from leaf `i` to the root. */
  function Branch(h: Hash2, s: seq<nat>, i: nat): seq<nat>
    decreases |s|
  {
    if |s| <= 1 then [] else [s[Sibling(i, |s|)]] + Branch(h, Level(h, s), i / 2)
  }

  /** Hashing `leaf` upwards along `branch`; bit 0 of the index says which side it is on. */
  function Climb(h: Hash2, leaf: nat, branch: seq<nat>, i: int): nat
    decreases |branch|
  {
    if branch == [] then leaf
    else Climb(h, if i % 2 == 1 then h(branch[0], leaf) else h(leaf, branch[0]), branch[1..], i / 2)
  }

  /** The parent of leaf `i` hashes it with its sibling, in index order. */
  lemma ParentHash(h: Hash2, s: seq<nat>, i: nat)
    requires i < |s| && |s| > 1
    ensures i / 2 < |Level(h, s)|
    ensures Level(h, s)[i / 2] ==
      if i % 2 == 1 then h(s[Sibling(i, |s|)], s[i]) else h(s[i], s[Sibling(i, |s|)])
  {
    assert Level(h, s)[i / 2] == Pair(h, s, i / 2);
  }

  lemma {:induction false} FlatLast(h: Hash2, s: seq<nat>)
    requires s != []
    ensures Flat(h, s) != [] && Flat(h, s)[|Flat(h, s)| - 1] == Root(h, s)
    decreases |s|
  {
    if |s| > 1 {
      FlatLast(h, Level(h, s));
    }
  }

  /** The inner loop of BuildMerkleTree: append the level above the last `size` entries. */
  method AppendLevel(hash: Hash2, tree: seq<nat>, j: nat, size: nat, ghost level: seq<nat>) returns (tree': seq<nat>)
    requires size > 1 && |level| == size && j + size == |tree| && tree[j..] == level
    ensures tree' == tree + Level(hash, level)
  {
    hide Level;
    tree' := tree;
    ghost var above := Level(hash, level);
    var i := 0;
    ghost var k := 0;
    while i < size
      invariant i == 2 * k && k <= |above|
      invariant tree' == tree + above[..k]
      decreases size - i
    {
      var i2 := if i + 1 < size then i + 1 else size - 1;
      assert tree'[j + i] == tree[j..][i] == level[i];
      assert tree'[j + i2] == tree[j..][i2] == level[i2];
      assert above[k] == Pair(hash, level, k);
      assert above[..k + 1] == above[..k] + [above[k]];
      tree' := tree' + [hash(tree'[j + i], tree'[j + i2])];
      i, k := i + 2, k + 1;
    }
    assert above[..k] == above;
  }

  /** Appending a level to a flat tree moves one level of `Flat` from the rest to the prefix. */
  lemma NextLevel(h: Hash2, tree: seq<nat>, j: nat, level: seq<nat>)
    requires |level| > 1 && j + |level| == |tree| && tree[j..] == level
    ensures var tree' := tree + Level(h, level);
      && tree'[j + |level|..] == Level(h, level)
      && tree'[..j + |level|] + Flat(h, Level(h, level)) == tree[..j] + Flat(h, level)
  {
    hide Level, Flat;
    FlatUnfolds(h, level);
    var tree' := tree + Level(h, level);
    assert tree'[..j + |level|] == tree[..j] + level;
  }

  lemma BranchUnfolds(h: Hash2, level: seq<nat>, n: nat, i: nat)
    requires |level| > 1
    requires var x := if n % 2 == 0 then n + 1 else n - 1; i == if x < |level| then x else |level| - 1
    ensures i < |level| && Branch(h, level, n) == [level[i]] + Branch(h, Level(h, level), n / 2)
  {
    hide Level;
  }

  lemma BranchEnds(h: Hash2, level: seq<nat>, n: nat)
    requires |level| <= 1
    ensures Branch(h, level, n) == []
  {
  }

  lemma FlatSplit(h: Hash2, level: seq<nat>, tree: seq<nat>, j: nat)
    requires |level| > 1 && j <= |tree| && tree[j..] == Flat(h, level)
    ensures j + |level| <= |tree| && tree[j + |level|..] == Flat(h, Level(h, level))
    ensures forall i :: 0 <= i < |level| ==> tree[j + i] == level[i]
  {
    hide Level, Flat;
    FlatUnfolds(h, level);
    assert tree[j + |level|..] == tree[j..][|level|..];
    forall i | 0 <= i < |level|
      ensures tree[j + i] == level[i]
    {
      assert tree[j + i] == tree[j..][i];
    }
  }

  class Block {
    const hash: Hash2
    /** Transaction hashes and the cached tree (empty means not built). */
    var vtx: seq<nat>
    var vMerkleTree: seq<nat>

    constructor (hash: Hash2, vtx: seq<nat>)
      ensures this.hash == hash && this.vtx == vtx && Fresh()
    {
      this.hash, this.vtx, vMerkleTree := hash, vtx, [];
    }

    /** The cache is empty or was built from the present transactions. */
    ghost predicate Fresh()
      reads this
    {
      vMerkleTree == [] || vMerkleTree == Flat(hash, vtx)
    }

    method BuildMerkleTree() returns (root: nat)
      modifies this`vMerkleTree
      ensures vMerkleTree == Flat(hash, vtx) && root == Root(hash, vtx)
    {
      hide Level, Flat;
      vMerkleTree := vtx;
      var j, size := 0, |vtx|;
      ghost var level := vtx;
      while size > 1
        invariant |level| == size && (vtx == [] <==> size == 0)
        invariant 0 <= j && j + size == |vMerkleTree| && vMerkleTree[j..] == level
        invariant vMerkleTree[..j] + Flat(hash, level) == Flat(hash, vtx)
        decreases size
      {
        ghost var before, above := vMerkleTree, Level(hash, level);
        var tree := AppendLevel(hash, vMerkleTree, j, size, level);
        vMerkleTree := tree;
        NextLevel(hash, before, j, level);
        j, size, level := j + size, (size + 1) / 2, above;
      }
      assert vMerkleTree == vMerkleTree[..j] + level;
      FlatUnfolds(hash, level);
      if vtx != [] {
        FlatLast(hash, vtx);
      }
      root := if vMerkleTree == [] then 0 else vMerkleTree[|vMerkleTree| - 1];
    }

    method GetMerkleBranch(index: nat) returns (branch: seq<nat>)
      requires Fresh()
      modifies this`vMerkleTree
      ensures branch == Branch(hash, vtx, index)
      ensures vMerkleTree == Flat(hash, vtx)
    {
      hide Level, Flat, Branch, Sibling;
      if vMerkleTree == [] {
        var _ := BuildMerkleTree();
      }
      branch := [];
      var j, size, n := 0, |vtx|, index;
      ghost var level := vtx;
      while size > 1
        invariant |level| == size && 0 <= j <= |vMerkleTree| && vMerkleTree == Flat(hash, vtx)
        invariant vMerkleTree[j..] == Flat(hash, level)
        invariant branch + Branch(hash, level, n) == Branch(hash, vtx, index)
        decreases size
      {
        var x := if n % 2 == 0 then n + 1 else n - 1;
        var i := if x < size then x else size - 1;
        FlatSplit(hash, level, vMerkleTree, j);
        BranchUnfolds(hash, level, n, i);
        ghost var above := Branch(hash, Level(hash, level), n / 2);
        assert branch + ([level[i]] + above) == branch + [level[i]] + above;
        branch := branch + [vMerkleTree[j + i]];
        n, j, size, level := n / 2, j + size, (size + 1) / 2, Level(hash, level);
      }
      BranchEnds(hash, level, n);
    }

    static method CheckMerkleBranch(hash: Hash2, leaf: nat, branch: seq<nat>, index: int) returns (root: nat)
      ensures root == if index == -1 then 0 else Climb(hash, leaf, branch, index)
    {
      if index == -1 {
        return 0;
      }
      root := leaf;
      var n := index;
      for k := 0 to |branch|
        invariant Climb(hash, root, branch[k..], n) == Climb(hash, leaf, branch, index)
      {
        assert branch[k..][1..] == branch[k + 1..];
        root := if n % 2 == 1 then hash(branch[k], root) else hash(root, branch[k]);
        n := n / 2;
      }
    }
  }

  /** For every block and every transaction in it, the extracted branch leads from the transaction to the root. */
  lemma {:induction false} BranchLeadsToRoot(h: Hash2, s: seq<nat>, i: nat)
    requires i < |s|
    ensures Climb(h, s[i], Branch(h, s, i), i) == Root(h, s)
    decreases |s|
  {
    if |s| > 1 {
      var up := Level(h, s);
      ParentHash(h, s, i);
      BranchLeadsToRoot(h, up, i / 2);
      assert Branch(h, s, i)[1..] == Branch(h, up, i / 2);
    }
  }

  /** No two different pairs hash alike. */
  ghost predicate Injective(h: Hash2) {
    forall a, b, c, d :: h(a, b) == h(c, d) ==> a == c && b == d
  }

  /** Under an injective hash no other leaf passes: any branch of the right length proves only the leaf at its index. */
  lemma {:induction false} BranchProvesLeaf(h: Hash2, s: seq<nat>, i: nat, leaf: nat, branch: seq<nat>)
    requires Injective(h) && i < |s| && |branch| == |Branch(h, s, i)|
    requires Climb(h, leaf, branch, i) == Root(h, s)
    ensures leaf == s[i] && branch == Branch(h, s, i)
    decreases |s|
  {
    if |s| > 1 {
      var up := Level(h, s);
      var next := if i % 2 == 1 then h(branch[0], leaf) else h(leaf, branch[0]);
      assert Branch(h, s, i)[1..] == Branch(h, up, i / 2);
      ParentHash(h, s, i);
      BranchProvesLeaf(h, up, i / 2, next, branch[1..]);
      assert branch == [branch[0]] + branch[1..];
    }
  }

  /** Number of levels above `n` leaves. */
  function Depth(n: nat): nat {
    if n <= 1 then 0 else 1 + Depth((n + 1) / 2)
  }

  /** Two lists agree up to repeating their end: what one level of pairing cannot tell apart. */
  lemma LevelBinds(h: Hash2, s: seq<nat>, t: seq<nat>)
    requires Injective(h) && Level(h, s) == Level(h, t)
    ensures forall i :: 0 <= i < |s| && i < |t| ==> s[i] == t[i]
    ensures |s| < |t| ==> |t| == |s| + 1 && t[|t| - 1] == t[|t| - 2]
    ensures |t| < |s| ==> |s| == |t| + 1 && s[|s| - 1] == s[|s| - 2]
  {
    var up := Level(h, s);
    forall k | 0 <= k < |up|
      ensures s[2 * k] == t[2 * k]
      ensures s[if 2 * k + 1 < |s| then 2 * k + 1 else 2 * k] == t[if 2 * k + 1 < |t| then 2 * k + 1 else 2 * k]
    {
      assert up[k] == Pair(h, s, k) == Pair(h, t, k);
    }
    forall i | 0 <= i < |s| && i < |t|
      ensures s[i] == t[i]
    {
      assert i == 2 * (i / 2) || i == 2 * (i / 2) + 1;
      assert 0 <= i / 2 < |up|;
    }
    if |s| < |t| {
      var k := |s| / 2;
      assert |s| == 2 * k + 1 && |t| == 2 * k + 2 && s[2 * k] == t[2 * k];
    }
    if |t| < |s| {
      var k := |t| / 2;
      assert |t| == 2 * k + 1 && |s| == 2 * k + 2 && s[2 * k] == t[2 * k];
    }
  }

  /** Distinct leaves have a distinct level above them, because the hash is injective. */
  lemma LevelDistinct(h: Hash2, s: seq<nat>)
    requires Injective(h) && NoDuplicates(s)
    ensures NoDuplicates(Level(h, s))
  {
  }

  /**
   The duplicate check of CheckBlock is what makes the root binding: among lists without repetition whose
   trees have the same height, the root determines the list.
   */
  lemma {:induction false} RootBindsDistinctLists(h: Hash2, s: seq<nat>, t: seq<nat>)
    requires Injective(h) && s != [] && t != [] && NoDuplicates(s) && NoDuplicates(t)
    requires Depth(|s|) == Depth(|t|) && Root(h, s) == Root(h, t)
    ensures s == t
    decreases |s|
  {
    if |s| > 1 {
      assert |t| > 1;
      LevelDistinct(h, s);
      LevelDistinct(h, t);
      RootBindsDistinctLists(h, Level(h, s), Level(h, t));
      LevelBinds(h, s, t);
    }
  }

  /** Without that check it is not: repeating an odd last transaction leaves the root unchanged. */
  lemma RepeatedLastSameRoot(h: Hash2, s: seq<nat>)
    requires |s| > 1 && |s| % 2 == 1
    ensures Root(h, s + [s[|s| - 1]]) == Root(h, s) && !NoDuplicates(s + [s[|s| - 1]])
  {
    var t := s + [s[|s| - 1]];
    assert t[|s| - 1] == t[|s|];
    assert Level(h, t) == Level(h, s);
  }

  // ---------------------------------------------------------------- what exactly the root determines

  /** Which of `n` leaves stands at place `i` once every odd level was filled up, `d` levels below the root. */
  function Place(n: nat, d: nat, i: nat): (p: nat)
    requires n > 0
    ensures p < n
  {
    if d == 0 then 0
    else
      var c := 2 * Place((n + 1) / 2, d - 1, i / 2) + i % 2;
      if c < n then c else n - 1
  }

  /** The filled-up list starts with the list itself. */
  lemma {:induction false} PlaceOfOwn(n: nat, i: nat)
    requires i < n
    ensures Place(n, Depth(n), i) == i
    decreases n
  {
    if n > 1 {
      PlaceOfOwn((n + 1) / 2, i / 2);
    }
  }

  /** The two lists are the same once both are filled up to 2^d leaves. */
  ghost predicate SameFilled(s: seq<nat>, t: seq<nat>, d: nat)
    requires s != [] && t != []
  {
    forall i: nat :: i < Pow(2, d) ==> SameLeaf(s, t, d, i)
  }

  ghost predicate SameLeaf(s: seq<nat>, t: seq<nat>, d: nat, i: nat)
    requires s != [] && t != []
  {
    s[Place(|s|, d, i)] == t[Place(|t|, d, i)]
  }

  /** Two parents agree exactly when both their children do. */
  lemma ParentsAgree(h: Hash2, s: seq<nat>, t: seq<nat>, d: nat, p: nat)
    requires Injective(h) && |s| > 1 && |t| > 1 && d > 0
    ensures SameLeaf(Level(h, s), Level(h, t), d - 1, p) <==> SameLeaf(s, t, d, 2 * p) && SameLeaf(s, t, d, 2 * p + 1)
  {
    var a, b := Place((|s| + 1) / 2, d - 1, p), Place((|t| + 1) / 2, d - 1, p);
    assert (2 * p) / 2 == p && (2 * p + 1) / 2 == p;
    assert Level(h, s)[a] == Pair(h, s, a) && Level(h, t)[b] == Pair(h, t, b);
  }

  lemma FilledUp(h: Hash2, s: seq<nat>, t: seq<nat>, d: nat)
    requires Injective(h) && |s| > 1 && |t| > 1 && d > 0
    ensures SameFilled(Level(h, s), Level(h, t), d - 1) <==> SameFilled(s, t, d)
  {
    hide SameLeaf;
    assert Pow(2, d) == 2 * Pow(2, d - 1);
    if SameFilled(Level(h, s), Level(h, t), d - 1) {
      forall i: nat | i < Pow(2, d)
        ensures SameLeaf(s, t, d, i)
      {
        ParentsAgree(h, s, t, d, i / 2);
        assert i == 2 * (i / 2) || i == 2 * (i / 2) + 1;
      }
    }
    if SameFilled(s, t, d) {
      var up: nat := d - 1;
      forall p: nat | p < Pow(2, up)
        ensures SameLeaf(Level(h, s), Level(h, t), up, p)
      {
        ParentsAgree(h, s, t, d, p);
      }
    }
  }

  /** Lists whose trees have the same height have the same root if and only if they agree once filled up. */
  lemma {:induction false} SameHeightRoots(h: Hash2, s: seq<nat>, t: seq<nat>)
    requires Injective(h) && s != [] && t != [] && Depth(|s|) == Depth(|t|)
    ensures Root(h, s) == Root(h, t) <==> SameFilled(s, t, Depth(|s|))
    decreases |s|
  {
    if |s| == 1 {
      assert Pow(2, 0) == 1;
      assert SameLeaf(s, t, 0, 0) <==> s[0] == t[0];
    } else {
      SameHeightRoots(h, Level(h, s), Level(h, t));
      FilledUp(h, s, t, Depth(|s|));
    }
  }

  /** The list `k` levels up. */
  function LevelUp(h: Hash2, s: seq<nat>, k: nat): seq<nat>
    decreases k
  {
    if k == 0 then s else LevelUp(h, Level(h, s), k - 1)
  }

  lemma {:induction false} LevelUpKeepsRoot(h: Hash2, s: seq<nat>, k: nat)
    requires s != [] && k <= Depth(|s|)
    ensures LevelUp(h, s, k) != [] && Root(h, LevelUp(h, s, k)) == Root(h, s)
    ensures Depth(|LevelUp(h, s, k)|) == Depth(|s|) - k
    decreases k
  {
    if k > 0 {
      LevelUpKeepsRoot(h, Level(h, s), k - 1);
    }
  }

  /**
   Exactly what the root determines, for any two lists: the roots are equal if and only if the list with
   the lower tree and the matching level of the other one agree once filled up.
   */
  lemma RootsEqualIff(h: Hash2, s: seq<nat>, t: seq<nat>)
    requires Injective(h) && s != [] && t != [] && Depth(|s|) <= Depth(|t|)
    ensures var up := LevelUp(h, t, Depth(|t|) - Depth(|s|));
      && up != [] && Depth(|up|) == Depth(|s|)
      && (Root(h, s) == Root(h, t) <==> SameFilled(s, up, Depth(|s|)))
  {
    LevelUpKeepsRoot(h, t, Depth(|t|) - Depth(|s|));
    SameHeightRoots(h, s, LevelUp(h, t, Depth(|t|) - Depth(|s|)));
  }

  // ---------------------------------------------------------------- the root from the top down

  /** The full binary tree over the places `lo`, ..., `lo + 2^k - 1` of the filled-up list: left half before right half. */
  function TopDown(h: Hash2, s: seq<nat>, d: nat, lo: nat, k: nat): nat
    requires s != []
    decreases k
  {
    if k == 0 then s[Place(|s|, d, lo)]
    else h(TopDown(h, s, d, lo, k - 1), TopDown(h, s, d, lo + Pow(2, k - 1), k - 1))
  }

  /** Pairing the leaves first makes no difference. */
  lemma {:induction false} PairsFirst(h: Hash2, s: seq<nat>, d: nat, lo: nat, k: nat)
    requires |s| > 1 && d > 0 && k > 0
    ensures TopDown(h, s, d, 2 * lo, k) == TopDown(h, Level(h, s), d - 1, lo, k - 1)
    decreases k
  {
    if k == 1 {
      var a := Place((|s| + 1) / 2, d - 1, lo);
      assert (2 * lo) / 2 == lo && (2 * lo + 1) / 2 == lo && Pow(2, 0) == 1;
      assert Level(h, s)[a] == Pair(h, s, a);
      assert TopDown(h, s, d, 2 * lo, 0) == s[2 * a];
    } else {
      assert Pow(2, k - 1) == 2 * Pow(2, k - 2);
      PairsFirst(h, s, d, lo, k - 1);
      PairsFirst(h, s, d, lo + Pow(2, k - 2), k - 1);
    }
  }

  /** The root that is built level by level is the hash of the full tree, left before right, over the filled-up list. */
  lemma {:induction false} RootIsTopDown(h: Hash2, s: seq<nat>)
    requires s != []
    ensures Root(h, s) == TopDown(h, s, Depth(|s|), 0, Depth(|s|))
    decreases |s|
  {
    if |s| > 1 {
      RootIsTopDown(h, Level(h, s));
      PairsFirst(h, s, Depth(|s|), 0, Depth(|s|));
    }
  }
}
