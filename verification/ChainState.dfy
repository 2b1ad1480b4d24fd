/**
 The chain state of the node: block tree, main-chain links, best block, spent-output index behind a
 database with begin/commit/abort, and per-block money supply; with Reorganize, SetBestChainInner,
 SetBestChain and AddToBlockIndex.
 */
module ChainState {
  import opened Wrappers
  import opened Sequences
  import opened Ledger
  import opened Blocks
  import opened Supply
  import opened BlockTree
  import opened Replay
  import opened Branches

  /** The blocks after genesis up to `tip`: the ones that were connected. */
  ghost function Connected(tree: Tree, root: nat, tip: nat): seq<nat>
    requires TreeOk(tree, root) && tip in tree
  {
    ChainShape(tree, root, tip);
    Chain(tree, root, tip)[1..]
  }

  /** Every block of the tree is stored and readable at its position, and ids are distinct along each branch. */
  ghost predicate StoreOk(tree: Tree, root: nat, store: Store, disk: DiskTxPos -> Option<Tx>)
    requires TreeOk(tree, root)
  {
    && store.Keys == tree.Keys
    && AllOnDisk(store, disk)
    && (forall b :: b in tree ==>
          AllStored(store, Connected(tree, root, b)) && DistinctIds(store, Connected(tree, root, b)))
  }

  lemma ConnectedStored(tree: Tree, root: nat, store: Store, b: nat)
    requires TreeOk(tree, root) && store.Keys == tree.Keys && b in tree
    ensures AllStored(store, Connected(tree, root, b))
  {
    ChainShape(tree, root, b);
  }

  /** Index, links and supply all describe the chain that ends in `tip`. */
  ghost predicate Describes(tree: Tree, root: nat, store: Store, disk: DiskTxPos -> Option<Tx>, tip: nat,
                            index: Index, next: map<nat, nat>, supply: map<nat, int>)
    requires TreeOk(tree, root) && store.Keys == tree.Keys && tip in tree
  {
    ConnectedStored(tree, root, store, tip);
    var ids := Connected(tree, root, tip);
    && ChainApplies(store, ids)
    && index == ReplayIndex(store, ids)
    && Links(next, Chain(tree, root, tip))
    && root in supply && supply[root] == 0
    && SupplyAlong(supply, store, disk, [], ids, |ids|)
  }

  lemma ConnectedChild(tree: Tree, root: nat, b: nat)
    requires TreeOk(tree, root) && b in tree && b != root
    ensures NodeOk(tree, b)
    ensures Chain(tree, root, b) == Chain(tree, root, tree[b].pprev.value) + [b]
    ensures Connected(tree, root, b) == Connected(tree, root, tree[b].pprev.value) + [b]
    ensures b !in Chain(tree, root, tree[b].pprev.value)
  {
    assert NodeOk(tree, b);
    ChainShape(tree, root, tree[b].pprev.value);
    ChainShape(tree, root, b);
    ChainDistinct(tree, root, b);
  }

  /** A chain's connected blocks up to an ancestor are the ancestor's connected blocks. */
  lemma ConnectedAncestor(tree: Tree, root: nat, f: nat, b: nat)
    requires TreeOk(tree, root) && IsAncestor(tree, root, f, b)
    ensures tree[f].height <= |Connected(tree, root, b)|
    ensures Connected(tree, root, f) == Connected(tree, root, b)[..tree[f].height]
    ensures tree[f].height < |Chain(tree, root, b)|
    ensures Chain(tree, root, b)[tree[f].height + 1..] == Connected(tree, root, b)[tree[f].height..]
  {
    AncestorAt(tree, root, f, b);
    ChainShape(tree, root, f);
  }

  /** The last block of a described chain carries the unspent value of the index. */
  lemma TipSupply(tree: Tree, root: nat, store: Store, disk: DiskTxPos -> Option<Tx>, tip: nat,
                  index: Index, next: map<nat, nat>, supply: map<nat, int>, f: nat)
    requires TreeOk(tree, root) && store.Keys == tree.Keys && tip in tree
    requires Describes(tree, root, store, disk, tip, index, next, supply)
    requires IsAncestor(tree, root, f, tip)
    ensures AllStored(store, Connected(tree, root, f))
    ensures f in supply && supply[f] == UnspentTotal(ReplayIndex(store, Connected(tree, root, f)), disk)
  {
    ConnectedStored(tree, root, store, f);
    ConnectedAncestor(tree, root, f, tip);
    var ids := Connected(tree, root, tip);
    ChainShape(tree, root, f);
    if f == root {
      assert Connected(tree, root, f) == [];
      assert UnspentTotal(map[], disk) == 0 by {
        assert Worths(map[], disk) == map[];
      }
    } else {
      var j := tree[f].height - 1;
      assert NodeOk(tree, f);
      AncestorAt(tree, root, f, tip);
      assert ids[j] == f;
      assert [] + ids[..j + 1] == Connected(tree, root, f);
    }
  }

  /** Connecting one child of the tip extends everything that describes the tip. */
  lemma DescribesChild(tree: Tree, root: nat, store: Store, disk: DiskTxPos -> Option<Tx>, b: nat, index: Index,
                       next: map<nat, nat>, supply: map<nat, int>, env: Env, s: int)
    requires TreeOk(tree, root) && store.Keys == tree.Keys && b in tree && b != root && NodeOk(tree, b)
    requires AllOnDisk(store, disk) && env.disk == disk
    requires Describes(tree, root, store, disk, tree[b].pprev.value, index, next, supply)
    requires TxsConnect(index, store[b], env, |store[b].vtx|) && UniqueIds(store[b].vtx)
    requires tree[b].pprev.value in supply
    requires s == supply[tree[b].pprev.value] + SupplyChange(index, store[b], env)
    ensures Describes(tree, root, store, disk, b, Applied(index, store[b], |store[b].vtx|),
                      next[tree[b].pprev.value := b], supply[b := s])
  {
    hide UnspentTotal, TxsConnect, SupplyChange, ReplayIndex, Chain;
    var p := tree[b].pprev.value;
    var ids := Connected(tree, root, p);
    ConnectedStored(tree, root, store, p);
    ConnectedStored(tree, root, store, b);
    ConnectedChild(tree, root, b);
    ChainShape(tree, root, p);
    ChainDistinct(tree, root, p);
    LinkOne(next, Chain(tree, root, p), b);
    ConnectStepsForward(store, ids, b, env);
    ReplayWell(store, ids, disk);
    BlockConservesValue(index, store[b], env);
    AncestorSelf(tree, root, p);
    TipSupply(tree, root, store, disk, p, index, next, supply, p);
    SupplyChild(supply, s, store, disk, ids, b);
    AncestorSelf(tree, root, p);
  }

  lemma SupplyChild(supply: map<nat, int>, s: int, store: Store, disk: DiskTxPos -> Option<Tx>, ids: seq<nat>, b: nat)
    requires AllStored(store, ids) && b in store && b !in ids
    requires SupplyAlong(supply, store, disk, [], ids, |ids|)
    requires AllStored(store, ids + [b]) && s == UnspentTotal(ReplayIndex(store, ids + [b]), disk)
    ensures SupplyAlong(supply[b := s], store, disk, [], ids + [b], |ids| + 1)
  {
    hide UnspentTotal, ReplayIndex;
    var ids' := ids + [b];
    forall j | 0 <= j < |ids'|
      ensures ids'[j] in supply[b := s]
      ensures supply[b := s][ids'[j]] == UnspentTotal(ReplayIndex(store, [] + ids'[..j + 1]), disk)
    {
      if j < |ids| {
        assert ids'[j] == ids[j] && [] + ids'[..j + 1] == [] + ids[..j + 1];
      } else {
        assert [] + ids'[..j + 1] == ids + [b];
      }
    }
  }

  /** What describes a tip looks at the supply of its own chain only. */
  lemma DescribesFrame(tree: Tree, root: nat, store: Store, disk: DiskTxPos -> Option<Tx>, tip: nat,
                       index: Index, next: map<nat, nat>, supply: map<nat, int>, supply': map<nat, int>)
    requires TreeOk(tree, root) && store.Keys == tree.Keys && tip in tree
    requires Describes(tree, root, store, disk, tip, index, next, supply)
    requires forall b :: b in Chain(tree, root, tip) && b in supply ==> b in supply' && supply'[b] == supply[b]
    ensures Describes(tree, root, store, disk, tip, index, next, supply')
  {
    hide UnspentTotal, ReplayIndex, Chain, Links;
    ChainShape(tree, root, tip);
    var c, ids := Chain(tree, root, tip), Connected(tree, root, tip);
    assert root == c[0];
    forall j | 0 <= j < |ids|
      ensures ids[j] in c
    {
      assert ids[j] == c[j + 1];
    }
  }

  lemma StoreParts(tree: Tree, root: nat, store: Store, disk: DiskTxPos -> Option<Tx>)
    requires TreeOk(tree, root) && StoreOk(tree, root, store, disk)
    ensures store.Keys == tree.Keys && AllOnDisk(store, disk)
  {
  }

  lemma ConnectsParts(idx: Index, blk: Block, env: Env, bestHeight: nat, other: bool)
    requires BlockConnects(idx, blk, env, bestHeight, other)
    ensures TxsConnect(idx, blk, env, |blk.vtx|) && UniqueIds(blk.vtx)
  {
  }

  /** `up` lists the blocks above `a` on the way to its descendant `b`. */
  ghost predicate IsBranch(tree: Tree, root: nat, a: nat, b: nat, up: seq<nat>)
    requires TreeOk(tree, root)
  {
    && IsAncestor(tree, root, a, b)
    && tree[a].height < |Chain(tree, root, b)| && up == Chain(tree, root, b)[tree[a].height + 1..]
  }

  /** How the walks of Reorganize cut the two chains at the fork. */
  lemma ForkCuts(tree: Tree, root: nat, store: Store, fork: nat, best: nat, b: nat)
    requires TreeOk(tree, root) && store.Keys == tree.Keys
    requires IsAncestor(tree, root, fork, best) && IsAncestor(tree, root, fork, b)
    ensures var h := tree[fork].height;
      && h <= |Connected(tree, root, best)| && h <= |Connected(tree, root, b)|
      && h < |Chain(tree, root, best)| && h < |Chain(tree, root, b)|
      && Connected(tree, root, fork) == Connected(tree, root, best)[..h]
      && Chain(tree, root, best)[h + 1..] == Connected(tree, root, best)[h..]
      && Chain(tree, root, b)[h + 1..] == Connected(tree, root, b)[h..]
      && Connected(tree, root, fork) + Connected(tree, root, b)[h..] == Connected(tree, root, b)
      && Chain(tree, root, best)[..h + 1] == Chain(tree, root, b)[..h + 1]
  {
    ConnectedAncestor(tree, root, fork, best);
    ConnectedAncestor(tree, root, fork, b);
    AncestorAt(tree, root, fork, best);
    AncestorAt(tree, root, fork, b);
  }

  /** The branch above the fork: stored, distinct, each block the child of the one before, none below the fork. */
  lemma BranchShape(tree: Tree, root: nat, store: Store, fork: nat, b: nat, v: seq<nat>)
    requires TreeOk(tree, root) && store.Keys == tree.Keys
    requires IsBranch(tree, root, fork, b, v)
    ensures AllStored(store, v) && NoDuplicates(v) && GrowsFrom(tree, fork, v)
  {
    hide Chain, TreeOk;
    var c, h := Chain(tree, root, b), tree[fork].height;
    ChainShape(tree, root, b);
    ChainDistinct(tree, root, b);
    AncestorAt(tree, root, fork, b);
    forall j | 0 <= j < |v|
      ensures v[j] in tree && tree[v[j]].pprev == Some(if j == 0 then fork else v[j - 1]) && v[j] != fork
    {
      assert v[j] == c[h + 1 + j];
      ParentInChain(tree, root, b, h + 1 + j);
    }
    GrowsByStep(tree, fork, v);
  }

  /** A chain whose branch above the fork was connected is described by the new index, links and supply. */
  lemma DescribesBranch(tree: Tree, root: nat, store: Store, disk: DiskTxPos -> Option<Tx>, best: nat, b: nat, fork: nat,
                        index: Index, next: map<nat, nat>, supply: map<nat, int>,
                        index': Index, next': map<nat, nat>, supply': map<nat, int>, v: seq<nat>)
    requires TreeOk(tree, root) && store.Keys == tree.Keys && best in tree && b in tree
    requires Describes(tree, root, store, disk, best, index, next, supply)
    requires IsAncestor(tree, root, fork, best)
    requires IsBranch(tree, root, fork, b, v)
    requires AllStored(store, v) && AllStored(store, Connected(tree, root, fork))
    requires AllStored(store, Connected(tree, root, b))
    requires ChainApplies(store, Connected(tree, root, b)) && index' == ReplayIndex(store, Connected(tree, root, b))
    requires SupplyAlong(supply', store, disk, Connected(tree, root, fork), v, |v|)
    requires forall x :: x !in v && x in supply ==> x in supply' && supply'[x] == supply[x]
    requires Links(next', Chain(tree, root, b))
    ensures Describes(tree, root, store, disk, b, index', next', supply')
  {
    hide UnspentTotal, ReplayIndex, Links, ChainApplies, TreeOk, DistinctIds, Chain;
    ForkCuts(tree, root, store, fork, best, b);
    ChainDistinct(tree, root, b);
    ChainShape(tree, root, b);
    var ids, h := Connected(tree, root, b), tree[fork].height;
    forall j | 0 <= j < |ids|
      ensures ids[j] in supply' && supply'[ids[j]] == UnspentTotal(ReplayIndex(store, [] + ids[..j + 1]), disk)
    {
      if j < h {
        BelowFork(tree, root, fork, best, b, v, j);
        var x := ids[j];
        AncestorSelf(tree, root, best);
        TipSupply(tree, root, store, disk, best, index, next, supply, x);
        assert [] + ids[..j + 1] == Connected(tree, root, x);
      } else {
        assert ids[j] == v[j - h];
        assert [] + ids[..j + 1] == Connected(tree, root, fork) + v[..j - h + 1];
      }
    }
    RootOutside(tree, root, fork, b, v);
  }

  lemma RootOutside(tree: Tree, root: nat, fork: nat, b: nat, v: seq<nat>)
    requires TreeOk(tree, root)
    requires IsBranch(tree, root, fork, b, v)
    ensures root !in v
  {
    ChainShape(tree, root, b);
  }

  lemma BelowFork(tree: Tree, root: nat, fork: nat, best: nat, b: nat, v: seq<nat>, j: nat)
    requires TreeOk(tree, root) && IsAncestor(tree, root, fork, best)
    requires IsBranch(tree, root, fork, b, v)
    requires j < tree[fork].height && j < |Connected(tree, root, b)|
    ensures var x := Connected(tree, root, b)[j];
      x !in v && IsAncestor(tree, root, x, best) && Connected(tree, root, x) == Connected(tree, root, b)[..j + 1]
  {
    ChainShape(tree, root, b);
    ChainDistinct(tree, root, b);
    var x := Connected(tree, root, b)[j];
    assert x == Chain(tree, root, b)[j + 1];
    ChainPrefix(tree, root, b, j + 1);
    AncestorAt(tree, root, fork, best);
    AncestorAt(tree, root, fork, b);
    assert Chain(tree, root, best)[j + 1] == Chain(tree, root, fork)[j + 1] == x;
  }

  /** Every block of the old branch reads, and every block of the new one reads and connects above the fork. */
  ghost predicate SwitchConnects(tree: Tree, root: nat, store: Store, disk: DiskTxPos -> Option<Tx>,
                                 best: nat, b: nat, fork: nat, o: Oracle)
    requires TreeOk(tree, root) && store.Keys == tree.Keys
    requires IsAncestor(tree, root, fork, best) && IsAncestor(tree, root, fork, b)
  {
    ForkCuts(tree, root, store, fork, best, b);
    ConnectedStored(tree, root, store, fork);
    BranchShape(tree, root, store, fork, b, Chain(tree, root, b)[tree[fork].height + 1..]);
    && (forall x :: x in Chain(tree, root, best)[tree[fork].height + 1..] ==> o.readOk(x))
    && AllConnect(store, Connected(tree, root, fork), Chain(tree, root, b)[tree[fork].height + 1..], o, disk, tree[best].height)
  }

  /**
   What a switch that goes through amounts to: every block of the old branch and of the new one was read, and each block
   of the new one that holds no stray coinstake raises the supply by at most its subsidy at the height of the
   old best block, which is the height the reward functions read.
   */
  lemma SwitchEmission(tree: Tree, root: nat, store: Store, disk: DiskTxPos -> Option<Tx>, best: nat, b: nat, fork: nat,
                       o: Oracle, up: seq<nat>, j: nat)
    requires TreeOk(tree, root) && store.Keys == tree.Keys && AllOnDisk(store, disk) && IsAncestor(tree, root, fork, best)
    requires IsBranch(tree, root, fork, b, up) && j < |up| && SwitchConnects(tree, root, store, disk, best, b, fork, o)
    requires AllStored(store, Connected(tree, root, fork)) && ChainApplies(store, Connected(tree, root, fork))
    requires AllStored(store, up)
    ensures forall x :: IsAncestor(tree, root, x, best) && !IsAncestor(tree, root, x, fork) ==> o.readOk(x)
    ensures o.readOk(up[j])
    ensures NoStrayCoinStake(store[up[j]]) ==>
      UnspentTotal(ReplayIndex(store, Connected(tree, root, fork) + up[..j + 1]), disk)
        <= UnspentTotal(ReplayIndex(store, Connected(tree, root, fork) + up[..j]), disk) + Subsidy(store[up[j]], tree[best].height)
  {
    hide UnspentTotal, ReplayIndex, ChainApplies, AllConnect, Subsidy, NoStrayCoinStake, Chain, Connected, DistinctIds;
    BranchEmission(store, Connected(tree, root, fork), up, j, o, disk, tree[best].height);
    forall x | IsAncestor(tree, root, x, best) && !IsAncestor(tree, root, x, fork)
      ensures o.readOk(x)
    {
      AboveFork(tree, root, fork, best, x);
    }
  }

  lemma AboveFork(tree: Tree, root: nat, fork: nat, best: nat, x: nat)
    requires TreeOk(tree, root) && IsAncestor(tree, root, fork, best)
    requires IsAncestor(tree, root, x, best) && !IsAncestor(tree, root, x, fork)
    ensures tree[fork].height < |Chain(tree, root, best)| && x in Chain(tree, root, best)[tree[fork].height + 1..]
  {
    var c, h := Chain(tree, root, best), tree[fork].height;
    AncestorAt(tree, root, fork, best);
    AncestorAt(tree, root, x, best);
    if tree[x].height <= h {
      AncestorsRelated(tree, root, x, fork, best);
    }
    assert c[h + 1..][tree[x].height - h - 1] == x;
  }

  /** The fork and the two lists Reorganize works through. */
  ghost predicate Plan(tree: Tree, root: nat, best: nat, b: nat, fork: nat, down: seq<nat>, up: seq<nat>)
    requires TreeOk(tree, root)
  {
    && IsFork(tree, root, fork, best, b)
    && tree[fork].height < |Chain(tree, root, best)|
    && down == Reversed(Chain(tree, root, best)[tree[fork].height + 1..])
    && IsBranch(tree, root, fork, b, up)
  }

  method PlanSwitch(tree: Tree, root: nat, best: nat, b: nat) returns (fork: nat, down: seq<nat>, up: seq<nat>)
    requires TreeOk(tree, root) && best in tree && b in tree
    ensures Plan(tree, root, best, b, fork, down, up)
  {
    fork := FindFork(tree, root, best, b);
    down := WalkDown(tree, root, best, fork);
    var rest := WalkDown(tree, root, b, fork);
    up := Reversed(rest);
    assert up == Chain(tree, root, b)[tree[fork].height + 1..];
  }

  /** A finished switch: the index replays the new chain and the new branch has its supply. */
  ghost predicate Switched(tree: Tree, root: nat, store: Store, disk: DiskTxPos -> Option<Tx>, b: nat, fork: nat,
                           up: seq<nat>, index': Index, supply': map<nat, int>)
    requires TreeOk(tree, root) && store.Keys == tree.Keys && b in tree && fork in tree && AllStored(store, up)
  {
    ConnectedStored(tree, root, store, b);
    ConnectedStored(tree, root, store, fork);
    && ChainApplies(store, Connected(tree, root, b)) && index' == ReplayIndex(store, Connected(tree, root, b))
    && SupplyAlong(supply', store, disk, Connected(tree, root, fork), up, |up|)
  }

  /** What the two branch loops need of the plan. */
  lemma PlanShape(tree: Tree, root: nat, store: Store, disk: DiskTxPos -> Option<Tx>, best: nat, b: nat, fork: nat,
                  down: seq<nat>, up: seq<nat>)
    requires TreeOk(tree, root) && StoreOk(tree, root, store, disk) && best in tree && b in tree
    requires Plan(tree, root, best, b, fork, down, up)
    ensures IsAncestor(tree, root, fork, best) && IsAncestor(tree, root, fork, b)
    ensures AllStored(store, up) && NoDuplicates(up)
    ensures GrowsFrom(tree, fork, up)
    ensures var ids, h := Connected(tree, root, best), tree[fork].height;
      && AllStored(store, ids) && DistinctIds(store, ids)
      && h <= |ids| && down == Reversed(ids[h..]) && Connected(tree, root, fork) == ids[..h]
      && ids[..h] + up == Connected(tree, root, b)
    ensures forall x :: x in Chain(tree, root, best) ==> x !in up
  {
    hide DistinctIds, Chain, GrowsFrom, NoDuplicates;
    ForkCuts(tree, root, store, fork, best, b);
    BranchShape(tree, root, store, fork, b, up);
    OffBranch(tree, root, fork, best, b, up);
  }

  /** The loops of Reorganize before its commit. */
  method RunSwitch(tree: Tree, root: nat, store: Store, disk: DiskTxPos -> Option<Tx>, best: nat, b: nat,
                   fork: nat, down: seq<nat>, up: seq<nat>,
                   index: Index, ghost next: map<nat, nat>, supply: map<nat, int>, o: Oracle)
    returns (ok: bool, index': Index, supply': map<nat, int>)
    requires TreeOk(tree, root) && StoreOk(tree, root, store, disk) && best in tree && b in tree
    requires Describes(tree, root, store, disk, best, index, next, supply)
    requires Plan(tree, root, best, b, fork, down, up)
    ensures AllStored(store, up)
    ensures ok <==> SwitchConnects(tree, root, store, disk, best, b, fork, o)
    ensures ok ==> Switched(tree, root, store, disk, b, fork, up, index', supply')
    ensures forall x :: x !in up && x in supply ==> x in supply' && supply'[x] == supply[x]
    ensures Describes(tree, root, store, disk, best, index, next, supply')
  {
    hide BlockConnects, AllOnDisk, Applied, UnspentTotal, ReplayIndex, AllConnect, Links, DistinctIds, ChainApplies,
         Chain, Connected, IsFork, NodeOk, GrowsFrom;
    index', supply' := index, supply;
    PlanShape(tree, root, store, disk, best, b, fork, down, up);
    ghost var ids, h := Connected(tree, root, best), tree[fork].height;
    ok, index' := DisconnectBranch(store, ids, h, index, down, o);
    ReadsDown(Chain(tree, root, best)[h + 1..], down, o);
    if !ok {
      return;
    }
    AppliesPrefix(store, ids, h);
    TipSupply(tree, root, store, disk, best, index, next, supply, fork);
    ok, index', supply' := ConnectBranch(store, ids[..h], tree, fork, index', up, supply, disk, tree[best].height, o);
    DescribesFrame(tree, root, store, disk, best, index, next, supply, supply');
  }

  /** ConnectBlock for a child of the tip, on values: what it leaves describes the child, and the tip still. */
  method RunChild(tree: Tree, root: nat, store: Store, disk: DiskTxPos -> Option<Tx>, b: nat, bestHeight: nat,
                  index: Index, ghost next: map<nat, nat>, supply: map<nat, int>, o: Oracle)
    returns (ok: bool, index': Index, supply': map<nat, int>)
    requires TreeOk(tree, root) && StoreOk(tree, root, store, disk) && b in tree && b != root && NodeOk(tree, b)
    requires Describes(tree, root, store, disk, tree[b].pprev.value, index, next, supply)
    ensures ok <==> BlockConnects(index, store[b], EnvAt(o, disk, b), bestHeight, o.other(b))
    ensures ok ==> Describes(tree, root, store, disk, b, index', next[tree[b].pprev.value := b], supply')
    ensures ok && NoStrayCoinStake(store[b]) ==>
      tree[b].pprev.value in supply' && b in supply' &&
      supply'[b] <= supply'[tree[b].pprev.value] + Subsidy(store[b], bestHeight)
    ensures Describes(tree, root, store, disk, tree[b].pprev.value, index, next, supply')
  {
    hide BlockConnects, Describes, TreeOk, StoreOk, AllOnDisk, Applied, SupplyChange, UnspentTotal, ReplayIndex, Subsidy,
      NoStrayCoinStake, TxsConnect;
    var p := tree[b].pprev.value;
    StoreParts(tree, root, store, disk);
    AncestorSelf(tree, root, p);
    TipSupply(tree, root, store, disk, p, index, next, supply, p);
    var s, mint;
    supply' := supply;
    ok, index', s, mint := ConnectBlock(store[b], index, EnvAt(o, disk, b), bestHeight, o.other(b), supply[p]);
    if ok {
      ConnectsParts(index, store[b], EnvAt(o, disk, b), bestHeight, o.other(b));
      if NoStrayCoinStake(store[b]) {
        SubsidyBound(index, store[b], EnvAt(o, disk, b), bestHeight, o.other(b));
      }
      DescribesChild(tree, root, store, disk, b, index, next, supply, EnvAt(o, disk, b), s);
      ConnectedChild(tree, root, b);
      supply' := supply[b := s];
      DescribesFrame(tree, root, store, disk, p, index, next, supply, supply');
    }
  }

  lemma ReadsDown(s: seq<nat>, down: seq<nat>, o: Oracle)
    requires down == Reversed(s)
    ensures (forall j :: 0 <= j < |down| ==> o.readOk(down[j])) <==> (forall x :: x in s ==> o.readOk(x))
  {
    forall j | 0 <= j < |s|
      ensures s[j] == down[|s| - 1 - j]
    {
    }
    forall j | 0 <= j < |down|
      ensures down[j] in s
    {
    }
  }

  /** The branch above the fork shares no block with the chain it replaces. */
  lemma OffBranch(tree: Tree, root: nat, fork: nat, best: nat, b: nat, up: seq<nat>)
    requires TreeOk(tree, root) && IsFork(tree, root, fork, best, b)
    requires IsBranch(tree, root, fork, b, up)
    ensures forall x :: x in Chain(tree, root, best) ==> x !in up
  {
    ChainShape(tree, root, b);
    ChainShape(tree, root, best);
    forall x | x in Chain(tree, root, best)
      ensures x !in up
    {
      if x in up {
        assert IsAncestor(tree, root, x, b) && IsAncestor(tree, root, x, best);
        AncestorAt(tree, root, x, fork);
      }
    }
  }

  /** The part of Reorganize after its commit. */
  method MoveLinks(tree: Tree, root: nat, ghost store: Store, ghost disk: DiskTxPos -> Option<Tx>, best: nat, b: nat, ghost fork: nat,
                   down: seq<nat>, up: seq<nat>, ghost index: Index, next: map<nat, nat>, ghost supply: map<nat, int>,
                   ghost index': Index, ghost supply': map<nat, int>)
    returns (next': map<nat, nat>)
    requires TreeOk(tree, root) && store.Keys == tree.Keys && best in tree && b in tree
    requires Describes(tree, root, store, disk, best, index, next, supply)
    requires Plan(tree, root, best, b, fork, down, up) && AllStored(store, up)
    requires Switched(tree, root, store, disk, b, fork, up, index', supply')
    requires forall x :: x !in up && x in supply ==> x in supply' && supply'[x] == supply[x]
    ensures Describes(tree, root, store, disk, b, index', next', supply')
  {
    hide UnspentTotal, ReplayIndex, Links, ChainApplies, SupplyAlong, AllStored, Connected;
    ForkCuts(tree, root, store, fork, best, b);
    var cut := UnlinkBranch(tree, root, next, best, tree[fork].height + 1, down);
    next' := LinkBranch(tree, root, cut, b, tree[fork].height + 1, up);
    ConnectedStored(tree, root, store, b);
    ConnectedStored(tree, root, store, fork);
    DescribesBranch(tree, root, store, disk, best, b, fork, index, next, supply, index', next', supply', up);
  }

  /** The tree and the store after a new child of a known block is added. */
  lemma StaticGrows(tree: Tree, root: nat, store: Store, disk: DiskTxPos -> Option<Tx>, blk: Block, trust: nat)
    requires TreeOk(tree, root) && StoreOk(tree, root, store, disk)
    requires blk.id !in tree && blk.prev in tree && Stored(disk, blk) && UniqueIds(blk.vtx)
    requires AllStored(store, Connected(tree, root, blk.prev))
    requires TxIds(blk.vtx) !! IdsOf(store, Connected(tree, root, blk.prev))
    requires trust > tree[blk.prev].trust
    ensures var tree', store' := tree[blk.id := Node(Some(blk.prev), tree[blk.prev].height + 1, trust)], store[blk.id := blk];
      TreeOk(tree', root) && StoreOk(tree', root, store', disk)
  {
    hide Chain, Stored;
    var node := Node(Some(blk.prev), tree[blk.prev].height + 1, trust);
    var tree', store' := tree[blk.id := node], store[blk.id := blk];
    TreeGrows(tree, root, blk.id, node);
    forall b | b in tree'
      ensures AllStored(store', Connected(tree', root, b)) && DistinctIds(store', Connected(tree', root, b))
    {
      if b != blk.id {
        ChainStable(tree, root, blk.id, node, b);
        StoreGrows(store, blk.id, blk, Connected(tree, root, b));
      } else {
        var ids := Connected(tree, root, blk.prev);
        ChainStable(tree, root, blk.id, node, blk.prev);
        StoreGrows(store, blk.id, blk, ids);
        ConnectedChild(tree', root, b);
        assert (ids + [b])[..|ids|] == ids;
      }
    }
    assert AllOnDisk(store', disk);
  }

  lemma TreeGrows(tree: Tree, root: nat, n: nat, node: Node)
    requires TreeOk(tree, root) && n !in tree && node.pprev.Some? && node.pprev.value in tree
    requires node.height == tree[node.pprev.value].height + 1 && node.trust > tree[node.pprev.value].trust
    ensures TreeOk(tree[n := node], root)
  {
    var tree' := tree[n := node];
    forall b | b in tree' && b != root
      ensures NodeOk(tree', b)
    {
      if b != n {
        assert NodeOk(tree, b);
      }
    }
  }

  lemma DescribesGrows(tree: Tree, root: nat, store: Store, disk: DiskTxPos -> Option<Tx>, blk: Block, node: Node, tip: nat,
                       index: Index, next: map<nat, nat>, supply: map<nat, int>)
    requires TreeOk(tree, root) && store.Keys == tree.Keys && tip in tree && blk.id !in tree
    requires TreeOk(tree[blk.id := node], root)
    requires Describes(tree, root, store, disk, tip, index, next, supply)
    ensures Describes(tree[blk.id := node], root, store[blk.id := blk], disk, tip, index, next, supply)
  {
    hide UnspentTotal, ReplayIndex, ChainApplies, Chain, Links;
    ChainStable(tree, root, blk.id, node, tip);
    var ids := Connected(tree, root, tip);
    ConnectedStored(tree, root, store, tip);
    StoreGrows(store, blk.id, blk, ids);
    forall j | 0 <= j < |ids|
      ensures ids[j] in supply
      ensures supply[ids[j]] == UnspentTotal(ReplayIndex(store[blk.id := blk], [] + ids[..j + 1]), disk)
    {
      StoreGrows(store, blk.id, blk, [] + ids[..j + 1]);
    }
  }

  /** The postponed blocks `up` above `mid` all read, connect and commit in turn. */
  ghost predicate LaterConnect(store: Store, ids: seq<nat>, up: seq<nat>, o: Oracle, disk: DiskTxPos -> Option<Tx>, bestHeight: nat)
    requires AllStored(store, ids) && AllStored(store, up)
  {
    AllConnect(store, ids, up, o, disk, bestHeight) && forall j :: 0 <= j < |up| ==> o.commitOk(up[j])
  }

  lemma LaterStep(store: Store, ids: seq<nat>, up: seq<nat>, j: nat, o: Oracle, disk: DiskTxPos -> Option<Tx>, bestHeight: nat)
    requires AllStored(store, ids) && AllStored(store, up) && j < |up|
    requires LaterConnect(store, ids, up[..j], o, disk, bestHeight)
    ensures LaterConnect(store, ids, up[..j + 1], o, disk, bestHeight) <==>
      StepConnects(store, ids + up[..j], up[j], o, disk, bestHeight) && o.commitOk(up[j])
    ensures !LaterConnect(store, ids, up[..j + 1], o, disk, bestHeight) ==> !LaterConnect(store, ids, up, o, disk, bestHeight)
  {
    hide StepConnects;
    assert up[..j + 1][..j] == up[..j];
    forall i | 0 <= i < j
      ensures o.commitOk(up[i])
    {
      assert up[..j][i] == up[i];
    }
    if LaterConnect(store, ids, up, o, disk, bestHeight) {
      ConnectPrefix(store, ids, up, j + 1, o, disk, bestHeight);
    }
  }

  lemma NonRoot(tree: Tree, root: nat, b: nat)
    requires TreeOk(tree, root) && b in tree && tree[b].pprev.Some?
    ensures b != root && NodeOk(tree, b)
  {
  }

  /** The block after `mid + up[..j]` on the branch of `b`. */
  lemma LaterShape(tree: Tree, root: nat, store: Store, mid: nat, b: nat, up: seq<nat>, j: nat, tip: nat)
    requires TreeOk(tree, root) && store.Keys == tree.Keys
    requires IsBranch(tree, root, mid, b, up)
    requires j < |up| && tip == (if j == 0 then mid else up[j - 1])
    requires AllStored(store, Connected(tree, root, mid)) && AllStored(store, up)
    ensures up[j] in tree && up[j] != root && NodeOk(tree, up[j]) && tree[up[j]].pprev == Some(tip)
    ensures IsAncestor(tree, root, up[j], b) && IsAncestor(tree, root, mid, up[j])
    ensures tip in tree && Connected(tree, root, tip) == Connected(tree, root, mid) + up[..j]
  {
    hide Chain, TreeOk;
    BranchShape(tree, root, store, mid, b, up);
    var c, h := Chain(tree, root, b), tree[mid].height;
    ChainShape(tree, root, b);
    assert up[j] == c[h + 1 + j];
    AncestorAt(tree, root, mid, b);
    ParentInChain(tree, root, b, h + 1 + j);
    ChainPrefix(tree, root, b, h + j);
    ChainPrefix(tree, root, b, h + 1 + j);
    assert tip == c[h + j];
    assert Chain(tree, root, up[j])[h] == mid;
    NonRoot(tree, root, up[j]);
  }

  lemma NoneLater(store: Store, ids: seq<nat>, o: Oracle, disk: DiskTxPos -> Option<Tx>, bestHeight: nat)
    requires AllStored(store, ids)
    ensures LaterConnect(store, ids, [], o, disk, bestHeight)
  {
  }

  lemma DescribedIndex(tree: Tree, root: nat, store: Store, disk: DiskTxPos -> Option<Tx>, tip: nat,
                       index: Index, next: map<nat, nat>, supply: map<nat, int>)
    requires TreeOk(tree, root) && store.Keys == tree.Keys && tip in tree
    requires Describes(tree, root, store, disk, tip, index, next, supply)
    ensures AllStored(store, Connected(tree, root, tip)) && index == ReplayIndex(store, Connected(tree, root, tip))
  {
    ConnectedStored(tree, root, store, tip);
  }

  /** The branch above `mid` ends in `b`, and `b` occurs nowhere earlier. */
  lemma LastOfBranch(tree: Tree, root: nat, mid: nat, b: nat, up: seq<nat>)
    requires TreeOk(tree, root)
    requires IsBranch(tree, root, mid, b, up)
    ensures if up == [] then mid == b else up[|up| - 1] == b && mid != b
    ensures forall j :: 0 <= j < |up| - 1 ==> up[j] != b
  {
    ChainShape(tree, root, b);
    ChainDistinct(tree, root, b);
    AncestorAt(tree, root, mid, b);
  }

  /** All that one postponed reconnect needs to know. */
  lemma LaterFacts(tree: Tree, root: nat, store: Store, disk: DiskTxPos -> Option<Tx>, mid: nat, b: nat, up: seq<nat>, j: nat,
                   tip: nat, index: Index, o: Oracle, bestHeight: nat)
    requires TreeOk(tree, root) && store.Keys == tree.Keys
    requires IsBranch(tree, root, mid, b, up)
    requires j < |up| && tip == (if j == 0 then mid else up[j - 1]) && tip in tree
    requires AllStored(store, Connected(tree, root, tip)) && index == ReplayIndex(store, Connected(tree, root, tip))
    requires AllStored(store, Connected(tree, root, mid)) && AllStored(store, up)
    requires LaterConnect(store, Connected(tree, root, mid), up[..j], o, disk, bestHeight)
    ensures up[j] in tree && up[j] != root && NodeOk(tree, up[j]) && tree[up[j]].pprev == Some(tip)
    ensures IsAncestor(tree, root, up[j], b) && IsAncestor(tree, root, mid, up[j]) && tip != b
    ensures LaterConnect(store, Connected(tree, root, mid), up[..j + 1], o, disk, bestHeight) <==>
      o.readOk(up[j]) && BlockConnects(index, store[up[j]], EnvAt(o, disk, up[j]), bestHeight, o.other(up[j])) && o.commitOk(up[j])
    ensures !LaterConnect(store, Connected(tree, root, mid), up[..j + 1], o, disk, bestHeight) ==>
      !LaterConnect(store, Connected(tree, root, mid), up, o, disk, bestHeight)
  {
    hide BlockConnects, Describes, TreeOk, AllConnect, Chain, LaterConnect, ReplayIndex, Connected;
    LaterShape(tree, root, store, mid, b, up, j, tip);
    LaterStep(store, Connected(tree, root, mid), up, j, o, disk, bestHeight);
    LastOfBranch(tree, root, mid, b, up);
  }

  // ---------------------------------------------------------------- when a heavier block becomes best

  /** The switch to `mid` above `fork` goes through, and everything postponed after it up to `b`. */
  ghost predicate SwitchesFully(tree: Tree, root: nat, store: Store, disk: DiskTxPos -> Option<Tx>, best: nat, b: nat,
                                mid: nat, fork: nat, o: Oracle)
    requires TreeOk(tree, root) && store.Keys == tree.Keys && best in tree && b in tree
  {
    && IsAncestor(tree, root, fork, best) && IsAncestor(tree, root, fork, mid) && mid in tree
    && SwitchConnects(tree, root, store, disk, best, mid, fork, o) && o.commitOk(mid)
    && AllStored(store, Connected(tree, root, mid)) && tree[mid].height < |Chain(tree, root, b)|
    && AllStored(store, Chain(tree, root, b)[tree[mid].height + 1..])
    && LaterConnect(store, Connected(tree, root, mid), Chain(tree, root, b)[tree[mid].height + 1..], o, disk, tree[best].height)
  }

  /**
   Block `b`, heavier than the best block `best` of a chain whose replay is the index, connects: on top of
   `best` when it is a child of it, otherwise by the switch to the first block of its branch to exceed
   `best` and the postponed reconnects above.
   */
  ghost predicate ConnectsFully(tree: Tree, root: nat, store: Store, disk: DiskTxPos -> Option<Tx>, best: nat, b: nat, o: Oracle)
    requires TreeOk(tree, root) && store.Keys == tree.Keys && best in tree && b in tree
  {
    ConnectedStored(tree, root, store, best);
    if tree[b].pprev == Some(best) then
      o.commitOk(b) &&
      BlockConnects(ReplayIndex(store, Connected(tree, root, best)), store[b], EnvAt(o, disk, b), tree[best].height, o.other(b))
    else
      forall mid, fork :: IsFirstToExceed(tree, root, mid, best, b) && IsFork(tree, root, fork, best, mid) ==>
        SwitchesFully(tree, root, store, disk, best, b, mid, fork, o)
  }

  /** How SetBestChain for `b` ended, with index `index` and best block `best` before: `tip` is how far the state reaches. */
  ghost predicate Outcome(tree: Tree, root: nat, store: Store, disk: DiskTxPos -> Option<Tx>, best: nat, index: Index, b: nat,
                          o: Oracle, ok: bool, tip: nat, mid: nat, fork: nat)
    requires TreeOk(tree, root) && store.Keys == tree.Keys && best in tree && b in tree
  {
    if tree[b].pprev == Some(best) then
      && (ok <==> BlockConnects(index, store[b], EnvAt(o, disk, b), tree[best].height, o.other(b)) && o.commitOk(b))
      && (ok ==> tip == b)
    else
      && IsFirstToExceed(tree, root, mid, best, b) && IsFork(tree, root, fork, best, mid)
      && (ok <==> SwitchConnects(tree, root, store, disk, best, mid, fork, o) && o.commitOk(mid))
      && (ok ==> IsAncestor(tree, root, mid, tip) && IsAncestor(tree, root, tip, b))
      && AllStored(store, Connected(tree, root, mid)) && tree[mid].height < |Chain(tree, root, b)|
      && AllStored(store, Chain(tree, root, b)[tree[mid].height + 1..])
      && (ok ==> (tip == b <==> LaterConnect(store, Connected(tree, root, mid), Chain(tree, root, b)[tree[mid].height + 1..],
                                             o, disk, tree[best].height)))
  }

  /** The best block moves and everything follows it if and only if the block connects fully. */
  lemma OutcomeIsFull(tree: Tree, root: nat, store: Store, disk: DiskTxPos -> Option<Tx>, best: nat, index: Index, b: nat,
                      o: Oracle, ok: bool, tip: nat, mid: nat, fork: nat)
    requires TreeOk(tree, root) && store.Keys == tree.Keys && best in tree && b in tree
    requires AllStored(store, Connected(tree, root, best)) && index == ReplayIndex(store, Connected(tree, root, best))
    requires Outcome(tree, root, store, disk, best, index, b, o, ok, tip, mid, fork)
    ensures ok && tip == b <==> ConnectsFully(tree, root, store, disk, best, b, o)
  {
    hide BlockConnects, SwitchConnects, LaterConnect, IsFork, IsFirstToExceed, Chain, TreeOk, IsAncestor, ReplayIndex;
    if tree[b].pprev != Some(best) {
      ForkParts(tree, root, fork, best, mid);
      forall m, f | IsFirstToExceed(tree, root, m, best, b) && IsFork(tree, root, f, best, m)
        ensures m == mid && f == fork
      {
        FirstUnique(tree, root, m, mid, best, b);
        ForkUnique(tree, root, f, fork, best, mid);
      }
    }
  }

  lemma ForkParts(tree: Tree, root: nat, fork: nat, best: nat, mid: nat)
    requires TreeOk(tree, root) && IsFork(tree, root, fork, best, mid)
    ensures IsAncestor(tree, root, fork, best) && IsAncestor(tree, root, fork, mid) && mid in tree
  {
  }

  /** `best` outranks every block that did not fail, and strictly outranks the ones that came before it. */
  ghost predicate Ranked(tree: Tree, order: seq<nat>, failed: set<nat>, best: nat)
    requires best in tree
  {
    && (forall b :: b in order <==> b in tree)
    && (forall b :: b in tree && b !in failed ==> tree[b].trust <= tree[best].trust)
    && (exists k :: 0 <= k < |order| && order[k] == best &&
          forall i :: 0 <= i < k && order[i] !in failed ==> order[i] in tree && tree[order[i]].trust < tree[best].trust)
  }

  /** A new arrival keeps the ranking: as the best if it strictly exceeds it, otherwise as an also-ran or a failure. */
  lemma RankedAppend(tree: Tree, order: seq<nat>, failed: set<nat>, best: nat, n: nat, node: Node)
    requires best in tree && n !in tree && Ranked(tree, order, failed, best)
    ensures node.trust <= tree[best].trust ==> Ranked(tree[n := node], order + [n], failed, best)
    ensures Ranked(tree[n := node], order + [n], failed + {n}, best)
    ensures node.trust > tree[best].trust ==> Ranked(tree[n := node], order + [n], failed, n)
  {
    var tree', order' := tree[n := node], order + [n];
    var k :| 0 <= k < |order| && order[k] == best &&
      forall i :: 0 <= i < k && order[i] !in failed ==> order[i] in tree && tree[order[i]].trust < tree[best].trust;
    assert order'[k] == best && order'[|order|] == n;
    assert forall i :: 0 <= i < |order| ==> order'[i] == order[i] && order[i] in tree;
  }

  // ---------------------------------------------------------------- runs

  /** A block that arrives, its own trust, and what the run leaves open about it. */
  datatype Arrival = Arrival(blk: Block, trust: nat, o: Oracle)

  function WithBlock(tree: Tree, blk: Block, trust: nat): Tree
    requires blk.prev in tree
  {
    tree[blk.id := Node(Some(blk.prev), tree[blk.prev].height + 1, tree[blk.prev].trust + trust)]
  }

  function TreeWith(tree: Tree, a: Arrival): Tree {
    if a.blk.id in tree || a.blk.prev !in tree then tree else WithBlock(tree, a.blk, a.trust)
  }

  function NewIds(tree: Tree, arrivals: seq<Arrival>): seq<nat>
    decreases |arrivals|
  {
    if arrivals == [] then []
    else (if arrivals[0].blk.id in tree then [] else [arrivals[0].blk.id]) + NewIds(TreeWith(tree, arrivals[0]), arrivals[1..])
  }

  function StoreWith(store: Store, a: Arrival): Store {
    if a.blk.id in store then store else store[a.blk.id := a.blk]
  }

  /** The parent is known, the block is written to the block files, and its ids are new on its branch. */
  ghost predicate ArrivalOk(root: nat, disk: DiskTxPos -> Option<Tx>, tree: Tree, store: Store, a: Arrival)
    requires TreeOk(tree, root) && store.Keys == tree.Keys
  {
    && a.trust > 0 && a.blk.prev in tree && Stored(disk, a.blk) && UniqueIds(a.blk.vtx)
    && AllStored(store, Connected(tree, root, a.blk.prev))
    && TxIds(a.blk.vtx) !! IdsOf(store, Connected(tree, root, a.blk.prev))
  }

  lemma ArrivalGrows(root: nat, disk: DiskTxPos -> Option<Tx>, tree: Tree, store: Store, a: Arrival)
    requires TreeOk(tree, root) && store.Keys == tree.Keys && ArrivalOk(root, disk, tree, store, a)
    ensures TreeOk(TreeWith(tree, a), root) && StoreWith(store, a).Keys == TreeWith(tree, a).Keys
  {
    if a.blk.id !in tree {
      TreeGrows(tree, root, a.blk.id, WithBlock(tree, a.blk, a.trust)[a.blk.id]);
    }
  }

  /** What a run of additions turns on: the blocks filed, the best block, and the heavier blocks that were refused. */
  datatype Snapshot = Snapshot(tree: Tree, store: Store, best: nat, failed: set<nat>)

  ghost predicate Sound(root: nat, s: Snapshot) {
    TreeOk(s.tree, root) && s.store.Keys == s.tree.Keys && s.best in s.tree
  }

  /** The arrival is new and strictly heavier than the best block. */
  predicate Heavier(s: Snapshot, a: Arrival) {
    a.blk.id !in s.tree && a.blk.prev in s.tree && s.best in s.tree && s.tree[a.blk.prev].trust + a.trust > s.tree[s.best].trust
  }

  ghost predicate Accepted(root: nat, disk: DiskTxPos -> Option<Tx>, s: Snapshot, a: Arrival)
    requires Sound(root, s) && ArrivalOk(root, disk, s.tree, s.store, a)
  {
    ArrivalGrows(root, disk, s.tree, s.store, a);
    ConnectsFully(TreeWith(s.tree, a), root, StoreWith(s.store, a), disk, s.best, a.blk.id, a.o)
  }

  /** A heavier arrival becomes best when it connects and is refused when it does not. */
  ghost function After(root: nat, disk: DiskTxPos -> Option<Tx>, s: Snapshot, a: Arrival): (r: Snapshot)
    requires Sound(root, s) && ArrivalOk(root, disk, s.tree, s.store, a)
    ensures Sound(root, r)
  {
    ArrivalGrows(root, disk, s.tree, s.store, a);
    var filed := s.(tree := TreeWith(s.tree, a), store := StoreWith(s.store, a));
    if !Heavier(s, a) then filed
    else if Accepted(root, disk, s, a) then filed.(best := a.blk.id)
    else filed.(failed := s.failed + {a.blk.id})
  }

  ghost predicate Feasible(root: nat, disk: DiskTxPos -> Option<Tx>, s: Snapshot, arrivals: seq<Arrival>)
    requires Sound(root, s)
    decreases |arrivals|
  {
    arrivals == [] ||
    (ArrivalOk(root, disk, s.tree, s.store, arrivals[0]) &&
     Feasible(root, disk, After(root, disk, s, arrivals[0]), arrivals[1..]))
  }

  ghost function RunAfter(root: nat, disk: DiskTxPos -> Option<Tx>, s: Snapshot, arrivals: seq<Arrival>): Snapshot
    requires Sound(root, s) && Feasible(root, disk, s, arrivals)
    decreases |arrivals|
  {
    if arrivals == [] then s else RunAfter(root, disk, After(root, disk, s, arrivals[0]), arrivals[1..])
  }

  /** No arrival builds on a block that was refused before. */
  ghost predicate OnUnrefused(root: nat, disk: DiskTxPos -> Option<Tx>, s: Snapshot, arrivals: seq<Arrival>)
    requires Sound(root, s) && Feasible(root, disk, s, arrivals)
    decreases |arrivals|
  {
    arrivals == [] ||
    (arrivals[0].blk.prev !in s.failed && OnUnrefused(root, disk, After(root, disk, s, arrivals[0]), arrivals[1..]))
  }

  /** Every arrival that is heavier than the best block of its time connects. */
  ghost predicate RunConnects(root: nat, disk: DiskTxPos -> Option<Tx>, s: Snapshot, arrivals: seq<Arrival>)
    requires Sound(root, s) && Feasible(root, disk, s, arrivals)
    decreases |arrivals|
  {
    arrivals == [] ||
    ((Heavier(s, arrivals[0]) ==> Accepted(root, disk, s, arrivals[0])) &&
     RunConnects(root, disk, After(root, disk, s, arrivals[0]), arrivals[1..]))
  }

  /** When all connect, nothing is refused, and so nothing builds on a refused block. */
  lemma {:induction false} NothingRefused(root: nat, disk: DiskTxPos -> Option<Tx>, s: Snapshot, arrivals: seq<Arrival>)
    requires Sound(root, s) && Feasible(root, disk, s, arrivals) && RunConnects(root, disk, s, arrivals)
    ensures RunAfter(root, disk, s, arrivals).failed == s.failed
    ensures s.failed == {} ==> OnUnrefused(root, disk, s, arrivals)
    decreases |arrivals|
  {
    hide Sound, ArrivalOk, Accepted, Heavier;
    if arrivals != [] {
      NothingRefused(root, disk, After(root, disk, s, arrivals[0]), arrivals[1..]);
    }
  }

  /** The first arrival of a run, and what it leaves of the run. */
  lemma RunHead(root: nat, disk: DiskTxPos -> Option<Tx>, s: Snapshot, arrivals: seq<Arrival>)
    requires Sound(root, s) && Feasible(root, disk, s, arrivals) && arrivals != [] && OnUnrefused(root, disk, s, arrivals)
    ensures var a := arrivals[0];
      && ArrivalOk(root, disk, s.tree, s.store, a) && a.blk.prev !in s.failed
      && Feasible(root, disk, After(root, disk, s, a), arrivals[1..])
      && OnUnrefused(root, disk, After(root, disk, s, a), arrivals[1..])
      && RunAfter(root, disk, s, arrivals) == RunAfter(root, disk, After(root, disk, s, a), arrivals[1..])
      && NewIds(s.tree, arrivals) == (if a.blk.id in s.tree then [] else [a.blk.id]) + NewIds(TreeWith(s.tree, a), arrivals[1..])
  {
    hide ArrivalOk, Sound, After;
  }

  lemma RunEnd(root: nat, disk: DiskTxPos -> Option<Tx>, s: Snapshot)
    requires Sound(root, s)
    ensures Feasible(root, disk, s, []) && RunAfter(root, disk, s, []) == s && NewIds(s.tree, []) == []
  {
  }

  /**
   A heavier block whose parent is no heavier than the best is itself the first of its branch to exceed the best:
   nothing is postponed, and the state follows the best block whether the switch succeeds or not.
   */
  lemma NothingPostponed(tree: Tree, root: nat, store: Store, disk: DiskTxPos -> Option<Tx>, best: nat, index: Index, b: nat,
                         o: Oracle, ok: bool, tip: nat, mid: nat, fork: nat)
    requires TreeOk(tree, root) && store.Keys == tree.Keys && best in tree && b in tree && b != root && NodeOk(tree, b)
    requires tree[tree[b].pprev.value].trust <= tree[best].trust < tree[b].trust
    requires Outcome(tree, root, store, disk, best, index, b, o, ok, tip, mid, fork) && ok
    ensures tip == b
  {
    hide BlockConnects, SwitchConnects, LaterConnect, IsFork, Chain, TreeOk;
    if tree[b].pprev != Some(best) {
      AncestorSelf(tree, root, mid);
      AncestorSelf(tree, root, b);
      if mid != b {
        AncestorOfParent(tree, root, mid, b);
        NoHeavierAncestor(tree, root, mid, tree[b].pprev.value);
      }
      MutualAncestors(tree, root, b, tip);
    }
  }

  lemma NoHeavierAncestor(tree: Tree, root: nat, a: nat, b: nat)
    requires TreeOk(tree, root) && IsAncestor(tree, root, a, b)
    ensures tree[a].trust <= tree[b].trust
  {
    if a != b {
      TrustGrows(tree, root, a, b);
    }
  }

  lemma ParentNoHeavier(tree: Tree, order: seq<nat>, failed: set<nat>, best: nat, p: nat)
    requires best in tree && Ranked(tree, order, failed, best) && p in tree
    ensures p !in failed ==> tree[p].trust <= tree[best].trust
  {
  }

  lemma RootKnown(tree: Tree, root: nat)
    requires TreeOk(tree, root)
    ensures root in tree
  {
  }

  class State {
    const root: nat
    const disk: DiskTxPos -> Option<Tx>
    var tree: Tree
    var store: Store
    var next: map<nat, nat>
    var supply: map<nat, int>
    /** Committed index. */
    var txdb: Index
    /** What the open database transaction shows; equals `txdb` outside one. */
    var view: Index
    var best: nat
    var cache: Option<nat>
    /** Blocks whose SetBestChain failed, and all blocks in order of arrival. */
    ghost var failed: set<nat>
    ghost var order: seq<nat>

    ghost predicate Static()
      reads this
    {
      && TreeOk(tree, root) && StoreOk(tree, root, store, disk) && best in tree
    }

    /** Index, links and supply describe the chain of `tip`, and no database transaction is open. */
    ghost predicate At(tip: nat)
      reads this
      requires Static()
    {
      tip in tree && view == txdb && Describes(tree, root, store, disk, tip, txdb, next, supply)
    }

    ghost predicate Valid()
      reads this
    {
      && Static() && At(best) && Ranked(tree, order, failed, best)
      && (cache.Some? ==> IsAncestor(tree, root, cache.value, best))
    }

    /** The state right after the genesis block was accepted: it is linked but never connected. */
    constructor (genesis: Block, trust: nat, disk: DiskTxPos -> Option<Tx>)
      requires Stored(disk, genesis)
      ensures Valid() && root == genesis.id && best == root && txdb == map[] && tree == map[root := Node(None, 0, trust)]
      ensures this.disk == disk && store == map[root := genesis] && failed == {} && order == [root]
    {
      root, this.disk := genesis.id, disk;
      tree, store := map[genesis.id := Node(None, 0, trust)], map[genesis.id := genesis];
      next, supply := map[], map[genesis.id := 0];
      txdb, view, best, cache := map[], map[], genesis.id, None;
      failed, order := {}, [genesis.id];
      new;
      assert Chain(tree, root, root) == [root];
      assert Connected(tree, root, root) == [];
      assert order[0] == best;
    }

    /** CBlock::SetBestChainInner: attach a child of the current tip of the index. */
    method SetBestChainInner(b: nat, o: Oracle) returns (ok: bool)
      requires Static() && b in tree && b != root && NodeOk(tree, b) && At(tree[b].pprev.value)
      modifies this`next, this`supply, this`txdb, this`view
      ensures Static()
      ensures ok <==> BlockConnects(old(txdb), store[b], EnvAt(o, disk, b), tree[best].height, o.other(b)) && o.commitOk(b)
      ensures ok ==> At(b)
      ensures ok && NoStrayCoinStake(store[b]) ==>
        tree[b].pprev.value in supply && b in supply &&
        supply[b] <= supply[tree[b].pprev.value] + Subsidy(store[b], tree[best].height)
      ensures !ok ==> At(tree[b].pprev.value) && next == old(next) && txdb == old(txdb)
    {
      hide BlockConnects, Describes, TreeOk, StoreOk, Subsidy, NoStrayCoinStake;
      StoreParts(tree, root, store, disk);
      var p := tree[b].pprev.value;
      var newView, newSupply;
      ok, newView, newSupply := RunChild(tree, root, store, disk, b, tree[best].height, view, next, supply, o);
      supply := newSupply;
      if !ok || !o.commitOk(b) {
        return false;
      }
      view, txdb := newView, newView;
      next := next[p := b];
    }

    /**
     Reorganize: disconnect to the fork, connect the other branch, commit, then move the links.
     It succeeds exactly when every block reads, every block of the new branch connects and the commit
     goes through; otherwise the committed index and the links are untouched.
     */
    method Reorganize(b: nat, o: Oracle) returns (ok: bool, ghost fork: nat)
      requires Static() && At(best) && b in tree
      modifies this`next, this`supply, this`txdb, this`view
      ensures IsFork(tree, root, fork, best, b)
      ensures IsAncestor(tree, root, fork, best) && IsAncestor(tree, root, fork, b)
      ensures ok <==> SwitchConnects(tree, root, store, disk, best, b, fork, o) && o.commitOk(b)
      ensures Static()
      ensures ok ==> At(b)
      ensures !ok ==> next == old(next) && txdb == old(txdb)
      ensures !ok ==> Describes(tree, root, store, disk, best, txdb, next, supply)
    {
      hide Describes, StoreOk, SwitchConnects, Switched;
      StoreParts(tree, root, store, disk);
      var f, down, up := PlanSwitch(tree, root, best, b);
      fork := f;
      var index', supply';
      ok, index', supply' := RunSwitch(tree, root, store, disk, best, b, f, down, up, view, next, supply, o);
      supply := supply';
      if !ok {
        return false, f;
      }
      view := index';
      if !o.commitOk(b) {
        return false, f;
      }
      txdb := view;
      var next' := MoveLinks(tree, root, store, disk, best, b, f, down, up, old(txdb), next, old(supply), view, supply);
      next := next';
      return true, f;
    }

    /** The postponed reconnects of SetBestChain; the first failure stops them without undoing anything. */
    method ConnectLater(mid: nat, b: nat, up: seq<nat>, o: Oracle) returns (ghost tip: nat)
      requires Static() && At(mid)
      requires IsBranch(tree, root, mid, b, up)
      modifies this`next, this`supply, this`txdb, this`view
      ensures Static() && At(tip)
      ensures IsAncestor(tree, root, mid, tip) && IsAncestor(tree, root, tip, b)
      ensures AllStored(store, Connected(tree, root, mid)) && AllStored(store, up)
      ensures tip == b <==> LaterConnect(store, Connected(tree, root, mid), up, o, disk, tree[best].height)
    {
      hide BlockConnects, Describes, TreeOk, StoreOk, AllConnect, Chain, LaterConnect, Connected, IsAncestor, NodeOk, ReplayIndex;
      StoreParts(tree, root, store, disk);
      BranchShape(tree, root, store, mid, b, up);
      ConnectedStored(tree, root, store, mid);
      AncestorSelf(tree, root, mid);
      tip := mid;
      LastOfBranch(tree, root, mid, b, up);
      ghost var ids, height := Connected(tree, root, mid), tree[best].height;
      assert LaterConnect(store, ids, up[..0], o, disk, height) by {
        NoneLater(store, ids, o, disk, height);
      }
      for j := 0 to |up|
        invariant Static() && At(tip) && tip == (if j == 0 then mid else up[j - 1])
        invariant IsAncestor(tree, root, mid, tip) && IsAncestor(tree, root, tip, b)
        invariant LaterConnect(store, ids, up[..j], o, disk, height)
      {
        var x := up[j];
        DescribedIndex(tree, root, store, disk, tip, txdb, next, supply);
        LaterFacts(tree, root, store, disk, mid, b, up, j, tip, txdb, o, height);
        if !o.readOk(x) {
          return;
        }
        var ok := SetBestChainInner(x, o);
        if !ok {
          return;
        }
        tip := x;
      }
      assert up[..|up|] == up;
    }

    /** The reorganizing branch of SetBestChain, before the best block moves. */
    method SwitchTo(b: nat, o: Oracle) returns (ok: bool, ghost tip: nat, ghost mid: nat, ghost fork: nat)
      requires Static() && At(best) && b in tree && tree[b].trust > tree[best].trust
      modifies this`next, this`supply, this`txdb, this`view
      ensures Static() && At(tip)
      ensures !ok ==> tip == best && next == old(next) && txdb == old(txdb)
      ensures IsFirstToExceed(tree, root, mid, best, b) && IsFork(tree, root, fork, best, mid)
      ensures IsAncestor(tree, root, mid, b) && IsAncestor(tree, root, fork, best) && IsAncestor(tree, root, fork, mid)
      ensures ok <==> SwitchConnects(tree, root, store, disk, best, mid, fork, o) && o.commitOk(mid)
      ensures ok ==> IsAncestor(tree, root, mid, tip) && IsAncestor(tree, root, tip, b)
      ensures AllStored(store, Connected(tree, root, mid)) && tree[mid].height < |Chain(tree, root, b)|
      ensures AllStored(store, Chain(tree, root, b)[tree[mid].height + 1..])
      ensures ok ==>
        (tip == b <==> LaterConnect(store, Connected(tree, root, mid), Chain(tree, root, b)[tree[mid].height + 1..],
                                    o, disk, tree[best].height))
    {
      hide Describes, SwitchConnects, LaterConnect, StoreOk, Connected, Chain, IsFork, IsFirstToExceed, TreeOk;
      StoreParts(tree, root, store, disk);
      var m, later := FindIntermediate(tree, root, best, b);
      mid := m;
      var up := Reversed(later);
      assert up == Chain(tree, root, b)[tree[m].height + 1..];
      BranchShape(tree, root, store, m, b, up);
      ConnectedStored(tree, root, store, m);
      ok, fork := Reorganize(m, o);
      tip := best;
      if !ok {
        view := txdb;
        return;
      }
      tip := ConnectLater(m, b, up, o);
    }

    /**
     CBlock::SetBestChain after genesis. A child of the best block is connected directly; otherwise the
     first block of the branch to exceed the old best is switched to and the rest is connected after it.
     `tip` is how far index, links and supply reach; the best block moves to `b` even if a postponed
     reconnect failed.
     */
    method SetBestChain(b: nat, o: Oracle) returns (ok: bool, ghost tip: nat, ghost mid: nat, ghost fork: nat)
      requires Static() && At(best) && b in tree && b != root && tree[b].trust > tree[best].trust
      modifies this`next, this`supply, this`txdb, this`view, this`best, this`cache
      ensures Static() && At(tip)
      ensures ok ==> best == b && cache == None
      ensures !ok ==> best == old(best) && tip == best && cache == old(cache) && next == old(next) && txdb == old(txdb)
      ensures Outcome(tree, root, store, disk, old(best), old(txdb), b, o, ok, tip, mid, fork)
      ensures ok && tip == b <==> ConnectsFully(tree, root, store, disk, old(best), b, o)
    {
      hide BlockConnects, Describes, SwitchConnects, LaterConnect, StoreOk, Connected, IsFork, IsFirstToExceed,
        ConnectsFully, ReplayIndex, Subsidy, NoStrayCoinStake, Chain;
      StoreParts(tree, root, store, disk);
      assert NodeOk(tree, b);
      tip, mid, fork := best, b, best;
      DescribedIndex(tree, root, store, disk, best, txdb, next, supply);
      ghost var index, was := txdb, best;
      if tree[b].pprev == Some(best) {
        ok := SetBestChainInner(b, o);
        if ok {
          tip := b;
        }
      } else {
        ok, tip, mid, fork := SwitchTo(b, o);
      }
      OutcomeIsFull(tree, root, store, disk, was, index, b, o, ok, tip, mid, fork);
      if !ok {
        return;
      }
      best, cache := b, None;
    }

    /** Put a new block into the tree; nothing else moves. */
    method FileBlock(blk: Block, blockTrust: nat)
      requires Valid() && blockTrust > 0 && blk.id !in tree && blk.prev in tree && Stored(disk, blk) && UniqueIds(blk.vtx)
      requires AllStored(store, Connected(tree, root, blk.prev))
      requires TxIds(blk.vtx) !! IdsOf(store, Connected(tree, root, blk.prev))
      modifies this`tree, this`store, this`order
      ensures tree == WithBlock(old(tree), blk, blockTrust) && store == old(store)[blk.id := blk]
      ensures order == old(order) + [blk.id]
      ensures Static() && At(best) && (cache.Some? ==> IsAncestor(tree, root, cache.value, best))
      ensures tree[blk.id].trust <= tree[best].trust ==> Ranked(tree, order, failed, best)
      ensures Ranked(tree, order, failed + {blk.id}, best)
      ensures tree[blk.id].trust > tree[best].trust ==> Ranked(tree, order, failed, blk.id)
      ensures blk.id != root
    {
      hide Describes, StoreOk, Chain, Ranked, TreeOk, Connected, Stored, UniqueIds, IdsOf, TxIds;
      var node := Node(Some(blk.prev), tree[blk.prev].height + 1, tree[blk.prev].trust + blockTrust);
      StoreParts(tree, root, store, disk);
      AncestorSelf(tree, root, best);
      StaticGrows(tree, root, store, disk, blk, node.trust);
      DescribesGrows(tree, root, store, disk, blk, node, best, txdb, next, supply);
      if cache.Some? {
        ChainStable(tree, root, blk.id, node, best);
      }
      RankedAppend(tree, order, failed, best, blk.id, node);
      RootKnown(tree, root);
      tree, store := tree[blk.id := node], store[blk.id := blk];
      order := order + [blk.id];
    }

    /**
     CBlock::AddToBlockIndex for a block whose parent is known: file it in the tree and, when its chain
     trust exceeds that of the best block, make it best. As long as no postponed reconnect fails
     (`tip == best`), every call keeps the whole chain state valid. A heavier block joins `failed` exactly
     when SetBestChain refuses it.
     */
    method AddToBlockIndex(blk: Block, blockTrust: nat, o: Oracle)
      returns (ok: bool, ghost tip: nat, ghost mid: nat, ghost fork: nat)
      requires Valid() && blockTrust > 0 && blk.prev in tree && Stored(disk, blk) && UniqueIds(blk.vtx)
      requires AllStored(store, Connected(tree, root, blk.prev))
      requires TxIds(blk.vtx) !! IdsOf(store, Connected(tree, root, blk.prev))
      modifies this
      ensures Static() && At(tip) && (tip == best ==> Valid())
      ensures blk.id in old(tree) ==>
        && !ok && tip == best && tree == old(tree) && store == old(store) && best == old(best)
        && failed == old(failed) && order == old(order) && next == old(next) && txdb == old(txdb) && supply == old(supply)
      ensures blk.id !in old(tree) ==>
        && tree == WithBlock(old(tree), blk, blockTrust) && store == old(store)[blk.id := blk]
        && order == old(order) + [blk.id] && failed == old(failed) + (if ok then {} else {blk.id})
        && best == (if ok && tree[blk.id].trust > tree[old(best)].trust then blk.id else old(best))
        && (!ok ==> tip == best && next == old(next) && txdb == old(txdb))
      ensures blk.id !in old(tree) && tree[blk.id].trust <= tree[old(best)].trust ==>
        ok && tip == best && next == old(next) && txdb == old(txdb) && supply == old(supply)
      ensures blk.id !in old(tree) && tree[blk.id].trust > tree[old(best)].trust ==>
        && Outcome(tree, root, store, disk, old(best), old(txdb), blk.id, o, ok, tip, mid, fork)
        && (ok && tip == best <==> ConnectsFully(tree, root, store, disk, old(best), blk.id, o))
      ensures blk.prev !in old(failed) ==> tip == best && Valid()
    {
      hide Describes, StoreOk, BlockConnects, SwitchConnects, LaterConnect, IsFork, IsFirstToExceed, Chain, Ranked, TreeOk,
           Connected, Stored, UniqueIds, IdsOf, TxIds, Outcome, ConnectsFully;
      tip, mid, fork := best, best, best;
      if blk.id in tree {
        ok := false;
        return;
      }
      ParentNoHeavier(tree, order, failed, best, blk.prev);
      FileBlock(blk, blockTrust);
      ok := true;
      if tree[blk.id].trust > tree[best].trust {
        ghost var index, was := txdb, best;
        ok, tip, mid, fork := SetBestChain(blk.id, o);
        if !ok {
          failed := failed + {blk.id};
        } else if blk.prev !in failed {
          StoreParts(tree, root, store, disk);
          assert NodeOk(tree, blk.id);
          NothingPostponed(tree, root, store, disk, was, index, blk.id, o, ok, tip, mid, fork);
        }
      }
    }

    /** The part of the state that a run turns on. */
    ghost function Snap(): Snapshot
      reads this
    {
      Snapshot(tree, store, best, failed)
    }

    /**
     A run of additions, some of which may be refused. As long as no arrival builds on a refused block the state
     stays valid throughout, and the blocks filed, the best block and the refused ones are as the run determines.
     */
    method AddAll(arrivals: seq<Arrival>)
      requires Valid() && Sound(root, Snap()) && Feasible(root, disk, Snap(), arrivals)
      requires OnUnrefused(root, disk, Snap(), arrivals)
      modifies this
      ensures Valid() && Snap() == RunAfter(root, disk, old(Snap()), arrivals)
      ensures order == old(order) + NewIds(old(tree), arrivals)
    {
      hide Describes, StoreOk, Ranked, Outcome, ConnectsFully, Feasible, RunAfter, OnUnrefused, NewIds, After, TreeOk, ArrivalOk;
      assert arrivals[0..] == arrivals;
      for i := 0 to |arrivals|
        invariant Valid() && Sound(root, Snap()) && Feasible(root, disk, Snap(), arrivals[i..])
        invariant OnUnrefused(root, disk, Snap(), arrivals[i..])
        invariant RunAfter(root, disk, Snap(), arrivals[i..]) == RunAfter(root, disk, old(Snap()), arrivals)
        invariant order + NewIds(tree, arrivals[i..]) == old(order) + NewIds(old(tree), arrivals)
      {
        ghost var s := Snap();
        assert arrivals[i..][0] == arrivals[i] && arrivals[i..][1..] == arrivals[i + 1..];
        RunHead(root, disk, s, arrivals[i..]);
        AddArrival(arrivals[i]);
      }
      RunEnd(root, disk, Snap());
    }

    method AddArrival(a: Arrival)
      requires Valid() && Sound(root, Snap()) && ArrivalOk(root, disk, tree, store, a) && a.blk.prev !in failed
      modifies this
      ensures Valid() && Sound(root, Snap()) && Snap() == After(root, disk, old(Snap()), a)
      ensures tree == TreeWith(old(tree), a) && order == old(order) + if a.blk.id in old(tree) then [] else [a.blk.id]
    {
      hide Describes, StoreOk, Ranked, Outcome, ConnectsFully, TreeOk, Stored, UniqueIds, TxIds, IdsOf, Connected;
      ghost var s := Snap();
      var ok;
      ghost var tip, mid, fork;
      ok, tip, mid, fork := AddToBlockIndex(a.blk, a.trust, a.o);
      StoreParts(tree, root, store, disk);
      ghost var filed := s.(tree := TreeWith(s.tree, a), store := StoreWith(s.store, a));
      assert filed.tree == tree && filed.store == store;
    }

    /** FindBlockByHeight on the live chain: any cached start leads to the best block's ancestor of that height. */
    method FindByHeight(height: nat) returns (b: nat)
      requires Valid() && height <= tree[best].height
      modifies this`cache
      ensures Valid() && IsAncestor(tree, root, b, best) && tree[b].height == height && cache == Some(b)
    {
      var c;
      b, c := FindBlockByHeight(tree, root, next, best, cache, height);
      cache := c;
    }

    /** What every valid chain state promises. */
    lemma ValidMeans()
      requires Valid()
      ensures best in supply && supply[best] == UnspentTotal(txdb, disk)
      ensures AllStored(store, Connected(tree, root, best)) && txdb == ReplayIndex(store, Connected(tree, root, best))
      ensures NoDuplicates(ChainInputs(store, Connected(tree, root, best)))
      ensures SpentExactly(txdb, ChainInputs(store, Connected(tree, root, best)))
      ensures forall b :: b in tree ==> (InMainChain(next, best, b) <==> IsAncestor(tree, root, b, best))
      ensures forall b :: b in tree && b !in failed ==> tree[b].trust <= tree[best].trust
    {
      hide Chain, UnspentTotal;
      AncestorSelf(tree, root, best);
      TipSupply(tree, root, store, disk, best, txdb, next, supply, best);
      AtMostOneSpender(store, Connected(tree, root, best));
      forall b | b in tree
        ensures InMainChain(next, best, b) <==> IsAncestor(tree, root, b, best)
      {
        MainChainIsAncestry(tree, root, next, best, b);
      }
    }
  }

  /** The tree that holds genesis only. */
  function GenesisTree(genesis: Block, trust: nat): (t: Tree)
    ensures TreeOk(t, genesis.id) && t.Keys == {genesis.id}
  {
    map[genesis.id := Node(None, 0, trust)]
  }

  ghost function GenesisSnapshot(genesis: Block, trust: nat): (s: Snapshot)
    ensures Sound(genesis.id, s)
  {
    Snapshot(GenesisTree(genesis, trust), map[genesis.id := genesis], genesis.id, {})
  }

  /**
   Over every run from genesis in which no arrival builds on a refused block, the state is valid: in particular the
   best block has the greatest trust of all blocks that were not refused. When the heavier blocks all
   connect, it has the greatest trust of all blocks ever filed, and came before every other of that trust.
   */
  method RunFromGenesis(genesis: Block, trust: nat, disk: DiskTxPos -> Option<Tx>, arrivals: seq<Arrival>) returns (s: State)
    requires Stored(disk, genesis) && Feasible(genesis.id, disk, GenesisSnapshot(genesis, trust), arrivals)
    requires OnUnrefused(genesis.id, disk, GenesisSnapshot(genesis, trust), arrivals)
    ensures s.Valid() && s.Snap() == RunAfter(genesis.id, disk, GenesisSnapshot(genesis, trust), arrivals)
    ensures s.order == [genesis.id] + NewIds(GenesisTree(genesis, trust), arrivals)
    ensures forall b :: b in s.tree && b !in s.failed ==> s.tree[b].trust <= s.tree[s.best].trust
    ensures RunConnects(genesis.id, disk, GenesisSnapshot(genesis, trust), arrivals) ==>
      && s.failed == {} && (forall b :: b in s.tree ==> s.tree[b].trust <= s.tree[s.best].trust)
      && exists k ::
        && 0 <= k < |s.order| && s.order[k] == s.best
        && forall i :: 0 <= i < k ==> s.order[i] in s.tree && s.tree[s.order[i]].trust < s.tree[s.best].trust
  {
    hide Feasible, RunConnects, OnUnrefused, RunAfter, TreeOk, Ranked, Describes, StoreOk, NewIds;
    s := new State(genesis, trust, disk);
    s.AddAll(arrivals);
    if RunConnects(genesis.id, disk, GenesisSnapshot(genesis, trust), arrivals) {
      NothingRefused(genesis.id, disk, GenesisSnapshot(genesis, trust), arrivals);
      RankedAll(s.tree, s.order, s.best);
    }
    RankedUnrefused(s.tree, s.order, s.failed, s.best);
  }

  lemma RankedUnrefused(tree: Tree, order: seq<nat>, failed: set<nat>, best: nat)
    requires best in tree && Ranked(tree, order, failed, best)
    ensures forall b :: b in tree && b !in failed ==> tree[b].trust <= tree[best].trust
  {
  }

  lemma RankedAll(tree: Tree, order: seq<nat>, best: nat)
    requires best in tree && Ranked(tree, order, {}, best)
    ensures forall b :: b in tree ==> tree[b].trust <= tree[best].trust
    ensures exists k ::
      && 0 <= k < |order| && order[k] == best
      && forall i :: 0 <= i < k ==> order[i] in tree && tree[order[i]].trust < tree[best].trust
  {
  }
}
