/**
 A run that ends with the best block ahead of the state: a postponed reconnect fails after a reorganization, and
 SetBestChain moves the best block all the same.
 */
module Stranded {
  import opened Wrappers
  import opened Sequences
  import opened Ledger
  import opened Blocks
  import opened BlockTree
  import opened Replay
  import opened Branches
  import opened ChainState

  /** The coinbase of block `n`, and block `n` with nothing else in it. */
  function CoinTx(n: nat): Tx {
    Tx(1000 + n, 0, [OutPoint(0, 0xFFFF_FFFF)], [TxOut(0, false)], 100, 0)
  }

  function CoinBlock(n: nat, prev: nat): Block {
    Block(n, prev, [CoinTx(n)], n, 0)
  }

  /** Block `n` is in file `n`. */
  function Files(p: DiskTxPos): Option<Tx> {
    if p.At? then Some(CoinTx(p.file)) else None
  }

  function PlainEnv(): Env {
    Env(Files, map[], _ => false, (_, _, _) => true, _ => 0)
  }

  /** Everything works, except reading block `unread` and committing the switch to block `uncommitted`. */
  function Mishap(unread: nat, uncommitted: nat): Oracle {
    Oracle(_ => PlainEnv(), _ => true, b => b != unread, b => b != uncommitted)
  }

  lemma CoinBlockFits(n: nat, prev: nat)
    ensures Stored(Files, CoinBlock(n, prev)) && UniqueIds(CoinBlock(n, prev).vtx)
    ensures TxIds(CoinBlock(n, prev).vtx) == {1000 + n}
  {
    assert TxIds([CoinTx(n)]) == {1000 + n} by {
      assert [CoinTx(n)][0].id == 1000 + n;
    }
  }

  lemma CoinBlockConnects(n: nat, prev: nat, idx: Index, env: Env, bestHeight: nat)
    requires 1000 + n !in idx
    ensures BlockConnects(idx, CoinBlock(n, prev), env, bestHeight, true)
  {
    var blk := CoinBlock(n, prev);
    var tx, outs := blk.vtx[0], blk.vtx[0].vout;
    assert outs[..1] == outs && outs[..0] == [];
    assert SumOut(outs) == 0;
    assert OutputInRange(outs, 0);
    assert Applied(idx, blk, 0) == idx;
    assert TxConnects(idx, idx, tx, env);
    assert TxsConnect(idx, blk, env, 0);
    assert TotalsOf(idx, blk, env, 0) == Totals(0, 0, 0, 0, 0);
  }

  // ---------------------------------------------------------------- the tree of the run

  /** Genesis 0, its children 1 and 2, and the child 3 of 2; 2 is heavier than 1. */
  function RunTree(): (t: Tree)
    ensures TreeOk(t, 0)
  {
    map[0 := Node(None, 0, 1), 1 := Node(Some(0), 1, 2), 2 := Node(Some(0), 1, 3), 3 := Node(Some(2), 2, 4)]
  }

  lemma RunChains(tree: Tree)
    requires TreeOk(tree, 0) && 0 in tree
    ensures Chain(tree, 0, 0) == [0] && Connected(tree, 0, 0) == []
    ensures forall b :: b in tree && b != 0 && tree[b].pprev == Some(0) ==>
      Chain(tree, 0, b) == [0, b] && Connected(tree, 0, b) == [b]
    ensures forall b, p :: b in tree && b != 0 && tree[b].pprev == Some(p) && p in tree && p != 0 && tree[p].pprev == Some(0) ==>
      Chain(tree, 0, b) == [0, p, b]
  {
  }

  /** Block 2 itself is the first of its branch to exceed block 1. */
  lemma SiblingFirst(tree: Tree, mid: nat)
    requires TreeOk(tree, 0) && 1 in tree && 2 in tree && tree[2].pprev == Some(0) && tree[0].trust <= tree[1].trust
    requires IsFirstToExceed(tree, 0, mid, 1, 2)
    ensures mid == 2
  {
    RunChains(tree);
    AncestorSelf(tree, 0, mid);
    assert mid in [0, 2];
  }

  /** The switch for block 3 is to block 2, above genesis. */
  lemma SwitchIsTo2(mid: nat, fork: nat)
    requires IsFirstToExceed(RunTree(), 0, mid, 1, 3) && IsFork(RunTree(), 0, fork, 1, mid)
    ensures mid == 2 && fork == 0
  {
    var t := RunTree();
    RunChains(t);
    assert IsAncestor(t, 0, 2, 3) && t[2].trust > t[1].trust;
    assert IsAncestor(t, 0, mid, 2);
    AncestorSelf(t, 0, mid);
    assert mid == 0 || mid == 2;
    assert fork in [0, 1] && fork in [0, 2];
  }

  function RunStore(): Store {
    map[0 := CoinBlock(0, 0), 1 := CoinBlock(1, 0), 2 := CoinBlock(2, 0), 3 := CoinBlock(3, 2)]
  }

  /** A single block connects exactly when its step does. */
  lemma OneConnects(store: Store, ids: seq<nat>, b: nat, o: Oracle, disk: DiskTxPos -> Option<Tx>, bestHeight: nat)
    requires AllStored(store, ids) && b in store
    ensures AllStored(store, [b])
    ensures AllConnect(store, ids, [b], o, disk, bestHeight) <==> StepConnects(store, ids, b, o, disk, bestHeight)
  {
    hide StepConnects;
    assert [b][..0] == [] && ids + [b][..0] == ids;
    assert AllConnect(store, ids, [b][..0], o, disk, bestHeight);
  }

  lemma Block2Connects(o: Oracle)
    requires o == Mishap(3, 0)
    ensures StepConnects(RunStore(), [], 2, o, Files, 1) && !StepConnects(RunStore(), [2], 3, o, Files, 1)
  {
    hide BlockConnects, CoinBlock;
    CoinBlockConnects(2, 0, map[], EnvAt(o, Files, 2), 1);
  }

  /** The switch goes through. */
  lemma SwitchWorks(o: Oracle)
    requires o == Mishap(3, 0)
    ensures IsAncestor(RunTree(), 0, 0, 1) && IsAncestor(RunTree(), 0, 0, 2)
    ensures SwitchConnects(RunTree(), 0, RunStore(), Files, 1, 2, 0, o) && o.commitOk(2)
  {
    hide StepConnects, AllConnect;
    var t := RunTree();
    RunChains(t);
    AncestorSelf(t, 0, 1);
    AncestorSelf(t, 0, 2);
    Block2Connects(o);
    OneConnects(RunStore(), [], 2, o, Files, 1);
    assert Chain(t, 0, 1)[1..] == [1] && Chain(t, 0, 2)[1..] == [2];
  }

  /** And then block 3 cannot be read. */
  lemma ThenStops(o: Oracle)
    requires o == Mishap(3, 0)
    ensures Connected(RunTree(), 0, 2) == [2] && |Chain(RunTree(), 0, 3)| == 3 && Chain(RunTree(), 0, 3)[2..] == [3]
    ensures AllStored(RunStore(), [2]) && AllStored(RunStore(), [3])
    ensures !LaterConnect(RunStore(), [2], [3], o, Files, 1)
  {
    hide StepConnects, AllConnect;
    RunChains(RunTree());
    Block2Connects(o);
    OneConnects(RunStore(), [2], 3, o, Files, 1);
  }

  /** So the state reaches block 2 and no further. */
  lemma StopsAt2(index: Index, ok: bool, tip: nat, mid: nat, fork: nat)
    requires Outcome(RunTree(), 0, RunStore(), Files, 1, index, 3, Mishap(3, 0), ok, tip, mid, fork)
    ensures ok && tip == 2
  {
    hide SwitchConnects, LaterConnect, BlockConnects, IsFork, IsFirstToExceed;
    var t := RunTree();
    SwitchIsTo2(mid, fork);
    SwitchWorks(Mishap(3, 0));
    ThenStops(Mishap(3, 0));
    RunChains(t);
    assert Chain(t, 0, 3) == [0, 2, 3];
    assert tip in [0, 2, 3] && 2 in Chain(t, 0, tip);
  }

  // ---------------------------------------------------------------- the run

  /** The state `s` holds exactly the tree `tree` and the blocks `store`, with `best` as best block. */
  ghost predicate Holds(s: State, tree: Tree, store: Store, best: nat, failed: set<nat>)
    reads s
  {
    s.Valid() && s.root == 0 && s.disk == Files && s.tree == tree && s.store == store && s.best == best && s.failed == failed
  }

  function Tree1(): Tree {
    map[0 := Node(None, 0, 1), 1 := Node(Some(0), 1, 2)]
  }

  function Store1(): Store {
    map[0 := CoinBlock(0, 0), 1 := CoinBlock(1, 0)]
  }

  function Tree2(): Tree {
    Tree1()[2 := Node(Some(0), 1, 3)]
  }

  function Store2(): Store {
    Store1()[2 := CoinBlock(2, 0)]
  }

  /** Block 1 becomes best. */
  method Start() returns (s: State)
    ensures fresh(s) && Holds(s, Tree1(), Store1(), 1, {})
  {
    hide Describes, StoreOk, BlockConnects, ConnectsFully, Stored, UniqueIds, TxIds, Ranked, SwitchConnects, LaterConnect;
    CoinBlockFits(0, 0);
    CoinBlockFits(1, 0);
    s := new State(CoinBlock(0, 0), 1, Files);
    RunChains(s.tree);
    CoinBlockConnects(1, 0, map[], EnvAt(Mishap(0, 0), Files, 1), 0);
    var ok;
    ghost var tip, mid, fork;
    ok, tip, mid, fork := s.AddToBlockIndex(CoinBlock(1, 0), 1, Mishap(0, 0));
  }

  /** Its heavier sibling 2 is refused because the commit fails. */
  method Refuse2(s: State)
    requires Holds(s, Tree1(), Store1(), 1, {})
    modifies s
    ensures Holds(s, Tree2(), Store2(), 1, {2})
  {
    hide Describes, StoreOk, BlockConnects, ConnectsFully, Stored, UniqueIds, TxIds, Ranked, SwitchConnects, LaterConnect;
    CoinBlockFits(2, 0);
    RunChains(s.tree);
    var ok;
    ghost var tip, mid, fork;
    ok, tip, mid, fork := s.AddToBlockIndex(CoinBlock(2, 0), 2, Mishap(0, 2));
    SiblingFirst(s.tree, mid);
    assert !Mishap(0, 2).commitOk(2);
  }

  lemma Ids2()
    ensures TreeOk(Tree2(), 0) && Connected(Tree2(), 0, 2) == [2] && AllStored(Store2(), [2])
    ensures IdsOf(Store2(), [2]) == {1002}
  {
    RunChains(Tree2());
    CoinBlockFits(2, 0);
    assert IdsOf(Store2(), [2][..0]) == {};
  }

  lemma FilingMakesRunTree()
    ensures 2 in Tree2() && WithBlock(Tree2(), CoinBlock(3, 2), 1) == RunTree() && Store2()[3 := CoinBlock(3, 2)] == RunStore()
  {
  }

  /** The child 3 of block 2 then switches to 2 and cannot be read. */
  method SwitchTo3(s: State)
    requires Holds(s, Tree2(), Store2(), 1, {2})
    modifies s
    ensures s.tree == RunTree() && s.store == RunStore() && s.Static() && s.best == 3 && s.failed == {2} && s.At(2)
  {
    hide StoreOk, BlockConnects, ConnectsFully, Stored, UniqueIds, TxIds, Ranked, SwitchConnects, LaterConnect, Outcome,
      Describes, IdsOf, TreeOk, Chain, Connected, Tree2, Store2, RunStore, WithBlock, CoinBlock;
    CoinBlockFits(3, 2);
    Ids2();
    FilingMakesRunTree();
    Names3();
    var ok;
    ghost var tip, mid, fork;
    ghost var index := s.txdb;
    ok, tip, mid, fork := s.AddToBlockIndex(CoinBlock(3, 2), 1, Mishap(3, 0));
    StopsAt2(index, ok, tip, mid, fork);
  }

  lemma Names3()
    ensures CoinBlock(3, 2).id == 3 && CoinBlock(3, 2).prev == 2 && 3 !in Tree2() && 1 in Tree2()
  {
  }

  /**
   The best block is 3, but index, links and supply describe the chain of 2, and being in the main chain is no longer
   the same as being an ancestor of the best block.
   */
  method RunAhead() returns (s: State)
    ensures s.Static() && s.root == 0 && s.best == 3 && s.failed == {2} && s.At(2)
    ensures !(forall b :: b in s.tree ==> (InMainChain(s.next, s.best, b) <==> IsAncestor(s.tree, s.root, b, s.best)))
  {
    hide StoreOk, Describes, Ranked, Chain;
    s := Start();
    Refuse2(s);
    SwitchTo3(s);
    TipLinks(s.tree, s.store, s.txdb, s.next, s.supply);
  }

  /** Links that describe the chain of block 2 do not fit best block 3. */
  lemma TipLinks(tree: Tree, store: Store, index: Index, next: map<nat, nat>, supply: map<nat, int>)
    requires tree == RunTree() && store.Keys == tree.Keys && Describes(tree, 0, store, Files, 2, index, next, supply)
    ensures !(forall b :: b in tree ==> (InMainChain(next, 3, b) <==> IsAncestor(tree, 0, b, 3)))
  {
    RunChains(tree);
    assert IsAncestor(tree, 0, 2, 3);
    LinksFitIffTipIsBest(tree, 0, next, 2, 3);
  }
}
