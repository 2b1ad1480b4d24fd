/**
 The two loops of Reorganize over whole branches: disconnecting the shorter branch and connecting
 the longer one, on the index that the open database transaction shows.
 */
module Branches {
  import opened Wrappers
  import opened Sequences
  import opened Ledger
  import opened Blocks
  import opened Supply
  import opened BlockTree
  import opened Replay

  /** Everything a run leaves open: file reads, commits, signatures and the other block checks. */
  datatype Oracle = Oracle(env: nat -> Env, other: nat -> bool, readOk: nat -> bool, commitOk: nat -> bool)

  function EnvAt(o: Oracle, disk: DiskTxPos -> Option<Tx>, b: nat): Env {
    o.env(b).(disk := disk)
  }

  /** Block `b` can be read and connects on top of the blocks `ids`. */
  predicate StepConnects(store: Store, ids: seq<nat>, b: nat, o: Oracle, disk: DiskTxPos -> Option<Tx>, bestHeight: nat)
    requires AllStored(store, ids) && b in store
  {
    o.readOk(b) && BlockConnects(ReplayIndex(store, ids), store[b], EnvAt(o, disk, b), bestHeight, o.other(b))
  }

  /** The blocks `v` can be read and connect one after the other on top of `ids`. */
  predicate AllConnect(store: Store, ids: seq<nat>, v: seq<nat>, o: Oracle, disk: DiskTxPos -> Option<Tx>, bestHeight: nat)
    requires AllStored(store, ids) && AllStored(store, v)
  {
    v == [] ||
    (AllConnect(store, ids, v[..|v| - 1], o, disk, bestHeight) &&
     StepConnects(store, ids + v[..|v| - 1], v[|v| - 1], o, disk, bestHeight))
  }

  lemma {:induction false} ConnectPrefix(store: Store, ids: seq<nat>, v: seq<nat>, k: nat, o: Oracle,
                                         disk: DiskTxPos -> Option<Tx>, bestHeight: nat)
    requires AllStored(store, ids) && AllStored(store, v) && k <= |v|
    requires AllConnect(store, ids, v, o, disk, bestHeight)
    ensures AllConnect(store, ids, v[..k], o, disk, bestHeight)
  {
    hide StepConnects;
    if k == |v| {
      assert v[..k] == v;
    } else {
      ConnectPrefix(store, ids, v[..|v| - 1], k, o, disk, bestHeight);
      assert v[..|v| - 1][..k] == v[..k];
    }
  }

  /** Disconnecting a branch from its tip down replays the chain below it; only a failed read can stop it. */
  method DisconnectBranch(store: Store, ghost ids: seq<nat>, ghost k: nat, idx: Index, v: seq<nat>, o: Oracle)
    returns (ok: bool, idx': Index)
    requires AllStored(store, ids) && DistinctIds(store, ids) && ChainApplies(store, ids)
    requires k <= |ids| && v == Reversed(ids[k..]) && idx == ReplayIndex(store, ids)
    ensures ok <==> forall j :: 0 <= j < |v| ==> o.readOk(v[j])
    ensures ok ==> idx' == ReplayIndex(store, ids[..k])
  {
    hide ReplayIndex, DistinctIds, ChainApplies, CanUndoAll, Undone;
    idx' := idx;
    assert ids[..|ids|] == ids;
    for j := 0 to |v|
      invariant idx' == ReplayIndex(store, ids[..|ids| - j])
      invariant forall i :: 0 <= i < j ==> o.readOk(v[i])
    {
      ghost var now := ids[..|ids| - j];
      assert now[|now| - 1] == v[j];
      if !o.readOk(v[j]) {
        return false, idx';
      }
      DistinctPrefix(store, ids, |ids| - j);
      AppliesPrefix(store, ids, |ids| - j);
      DisconnectStepsBack(store, now);
      assert now[..|now| - 1] == ids[..|ids| - (j + 1)];
      var stepOk, next := DisconnectBlock(store[v[j]], idx');
      idx' := next;
    }
    return true, idx';
  }

  /** `supply` records, for block `v[j]`, the unspent value after replaying up to it. */
  ghost predicate SupplyAlong(supply: map<nat, int>, store: Store, disk: DiskTxPos -> Option<Tx>, ids: seq<nat>, v: seq<nat>, k: nat)
    requires AllStored(store, ids) && AllStored(store, v) && k <= |v|
  {
    forall j :: 0 <= j < k ==>
      v[j] in supply && supply[v[j]] == UnspentTotal(ReplayIndex(store, ids + v[..j + 1]), disk)
  }

  /** What one successful ConnectBlock does to the replayed chain and to the supply. */
  lemma StepEffect(store: Store, ids: seq<nat>, b: nat, o: Oracle, disk: DiskTxPos -> Option<Tx>, bestHeight: nat)
    requires AllStored(store, ids) && b in store && ChainApplies(store, ids) && AllOnDisk(store, disk)
    requires StepConnects(store, ids, b, o, disk, bestHeight)
    ensures AllStored(store, ids + [b]) && ChainApplies(store, ids + [b])
    ensures ReplayIndex(store, ids + [b]) == Applied(ReplayIndex(store, ids), store[b], |store[b].vtx|)
    ensures UnspentTotal(ReplayIndex(store, ids + [b]), disk) ==
      UnspentTotal(ReplayIndex(store, ids), disk) + SupplyChange(ReplayIndex(store, ids), store[b], EnvAt(o, disk, b))
  {
    hide UnspentTotal, TxsConnect, SupplyChange;
    ConnectStepsForward(store, ids, b, EnvAt(o, disk, b));
    ReplayWell(store, ids, disk);
    BlockConservesValue(ReplayIndex(store, ids), store[b], EnvAt(o, disk, b));
  }

  /**
   Each block of a branch that connects was read, and raises the unspent value by at most its subsidy at the best
   height of the time, if it holds no stray coinstake.
   */
  lemma BranchEmission(store: Store, ids: seq<nat>, v: seq<nat>, j: nat, o: Oracle, disk: DiskTxPos -> Option<Tx>, bestHeight: nat)
    requires AllStored(store, ids) && AllStored(store, v) && ChainApplies(store, ids) && AllOnDisk(store, disk) && j < |v|
    requires AllConnect(store, ids, v, o, disk, bestHeight)
    ensures o.readOk(v[j])
    ensures NoStrayCoinStake(store[v[j]]) ==>
      UnspentTotal(ReplayIndex(store, ids + v[..j + 1]), disk)
        <= UnspentTotal(ReplayIndex(store, ids + v[..j]), disk) + Subsidy(store[v[j]], bestHeight)
  {
    hide UnspentTotal, BlockConnects, ReplayIndex, ChainApplies, AllConnect, NoStrayCoinStake, Subsidy, SupplyChange;
    ConnectPrefix(store, ids, v, j + 1, o, disk, bestHeight);
    BranchApplies(store, ids, v, j, o, disk, bestHeight);
    LastConnects(store, ids, v, j, o, disk, bestHeight);
    StepEffect(store, ids + v[..j], v[j], o, disk, bestHeight);
    assert ids + v[..j] + [v[j]] == ids + v[..j + 1];
    if NoStrayCoinStake(store[v[j]]) {
      SubsidyBound(ReplayIndex(store, ids + v[..j]), store[v[j]], EnvAt(o, disk, v[j]), bestHeight, o.other(v[j]));
    }
  }

  lemma LastConnects(store: Store, ids: seq<nat>, v: seq<nat>, j: nat, o: Oracle, disk: DiskTxPos -> Option<Tx>, bestHeight: nat)
    requires AllStored(store, ids) && AllStored(store, v) && j < |v| && AllConnect(store, ids, v[..j + 1], o, disk, bestHeight)
    ensures AllConnect(store, ids, v[..j], o, disk, bestHeight) && StepConnects(store, ids + v[..j], v[j], o, disk, bestHeight)
  {
    hide StepConnects;
    assert v[..j + 1][..j] == v[..j];
  }

  lemma {:induction false} BranchApplies(store: Store, ids: seq<nat>, v: seq<nat>, j: nat, o: Oracle,
                                         disk: DiskTxPos -> Option<Tx>, bestHeight: nat)
    requires AllStored(store, ids) && AllStored(store, v) && ChainApplies(store, ids) && AllOnDisk(store, disk) && j <= |v|
    requires AllConnect(store, ids, v, o, disk, bestHeight)
    ensures ChainApplies(store, ids + v[..j])
  {
    hide StepConnects, ChainApplies, ReplayIndex, AllConnect, UnspentTotal, SupplyChange;
    if j == 0 {
      assert ids + v[..0] == ids;
    } else {
      BranchApplies(store, ids, v, j - 1, o, disk, bestHeight);
      ConnectPrefix(store, ids, v, j, o, disk, bestHeight);
      LastConnects(store, ids, v, j - 1, o, disk, bestHeight);
      StepEffect(store, ids + v[..j - 1], v[j - 1], o, disk, bestHeight);
      assert ids + v[..j - 1] + [v[j - 1]] == ids + v[..j];
    }
  }

  /** The supply of blocks outside `v` is as it was. */
  ghost predicate OutsideKept(supply: map<nat, int>, supply': map<nat, int>, v: seq<nat>) {
    forall b :: b !in v ==> (b in supply' <==> b in supply) && (b in supply ==> supply'[b] == supply[b])
  }

  lemma KeptAtFirst(supply: map<nat, int>, v: seq<nat>)
    ensures OutsideKept(supply, supply, v)
  {
  }

  lemma KeptStill(supply: map<nat, int>, supply': map<nat, int>, v: seq<nat>, j: nat, s: int)
    requires OutsideKept(supply, supply', v) && j < |v|
    ensures OutsideKept(supply, supply'[v[j] := s], v)
  {
    assert v[j] in v;
  }

  /** The blocks `v` are a branch above `from`, each the child of the one before. */
  predicate GrowsFrom(tree: Tree, from: nat, v: seq<nat>) {
    && (forall j :: 0 <= j < |v| ==> v[j] in tree && tree[v[j]].pprev == Some(if j == 0 then from else v[j - 1]))
    && (forall j :: 0 <= j < |v| ==> v[j] != from)
  }

  lemma GrowsByStep(tree: Tree, from: nat, v: seq<nat>)
    requires forall j :: 0 <= j < |v| ==> v[j] in tree && tree[v[j]].pprev == Some(if j == 0 then from else v[j - 1]) && v[j] != from
    ensures GrowsFrom(tree, from, v)
  {
  }

  lemma GrowsAt(tree: Tree, from: nat, v: seq<nat>, j: nat)
    requires GrowsFrom(tree, from, v) && j < |v|
    ensures v[j] in tree && tree[v[j]].pprev == Some(if j == 0 then from else v[j - 1]) && v[j] != from
  {
  }

  /** Connecting a branch from the fork up: it succeeds exactly when every block reads and connects. */
  method ConnectBranch(store: Store, ghost ids: seq<nat>, tree: Tree, from: nat, idx: Index, v: seq<nat>,
                       supply: map<nat, int>, disk: DiskTxPos -> Option<Tx>, bestHeight: nat, o: Oracle)
    returns (ok: bool, idx': Index, supply': map<nat, int>)
    requires AllStored(store, ids) && AllStored(store, v) && ChainApplies(store, ids) && AllOnDisk(store, disk)
    requires idx == ReplayIndex(store, ids)
    requires from in supply && supply[from] == UnspentTotal(idx, disk)
    requires GrowsFrom(tree, from, v)
    requires NoDuplicates(v)
    ensures ok <==> AllConnect(store, ids, v, o, disk, bestHeight)
    ensures ok ==> AllStored(store, ids + v) && ChainApplies(store, ids + v) && idx' == ReplayIndex(store, ids + v)
    ensures ok ==> SupplyAlong(supply', store, disk, ids, v, |v|)
    ensures OutsideKept(supply, supply', v)
  {
    hide UnspentTotal, BlockConnects, ReplayIndex, ChainApplies, SupplyAlong, AllConnect, SupplyChange, NoDuplicates, OutsideKept, GrowsFrom;
    idx', supply' := idx, supply;
    KeptAtFirst(supply, v);
    assert ids + v[..0] == ids;
    NoneConnect(store, ids, v, supply, o, disk, bestHeight);
    for j := 0 to |v|
      invariant AllConnect(store, ids, v[..j], o, disk, bestHeight)
      invariant AllStored(store, ids + v[..j]) && ChainApplies(store, ids + v[..j])
      invariant idx' == ReplayIndex(store, ids + v[..j])
      invariant SupplyAlong(supply', store, disk, ids, v, j)
      invariant from in supply' && supply'[from] == supply[from]
      invariant OutsideKept(supply, supply', v)
    {
      var b := v[j];
      assert v[..j + 1][..j] == v[..j] && v[..j + 1] == v[..j] + [b];
      assert ids + v[..j + 1] == ids + v[..j] + [b];
      if !o.readOk(b) {
        NotConnected(store, ids, v, j, o, disk, bestHeight);
        return false, idx', supply';
      }
      GrowsAt(tree, from, v, j);
      SupplyBelow(supply', supply[from], store, disk, ids, v, j);
      var prev := tree[b].pprev.value;
      var stepOk, next, newSupply, mint :=
        ConnectBlock(store[b], idx', EnvAt(o, disk, b), bestHeight, o.other(b), supply'[prev]);
      if !stepOk {
        NotConnected(store, ids, v, j, o, disk, bestHeight);
        return false, idx', supply';
      }
      StepEffect(store, ids + v[..j], b, o, disk, bestHeight);
      assert supply'[prev] == UnspentTotal(idx', disk);
      ConnectOneMore(store, ids, v, j, o, disk, bestHeight);
      SupplyStep(supply', newSupply, store, disk, ids, v, j);
      KeptStill(supply, supply', v, j, newSupply);
      idx', supply' := next, supply'[b := newSupply];
    }
    assert v[..|v|] == v;
    return true, idx', supply';
  }

  lemma NoneConnect(store: Store, ids: seq<nat>, v: seq<nat>, supply: map<nat, int>, o: Oracle,
                    disk: DiskTxPos -> Option<Tx>, bestHeight: nat)
    requires AllStored(store, ids) && AllStored(store, v)
    ensures AllConnect(store, ids, v[..0], o, disk, bestHeight) && SupplyAlong(supply, store, disk, ids, v, 0)
  {
  }

  lemma ConnectOneMore(store: Store, ids: seq<nat>, v: seq<nat>, j: nat, o: Oracle,
                       disk: DiskTxPos -> Option<Tx>, bestHeight: nat)
    requires AllStored(store, ids) && AllStored(store, v) && j < |v| && AllConnect(store, ids, v[..j], o, disk, bestHeight)
    requires AllStored(store, ids + v[..j]) && StepConnects(store, ids + v[..j], v[j], o, disk, bestHeight)
    ensures AllConnect(store, ids, v[..j + 1], o, disk, bestHeight)
  {
    hide StepConnects;
    assert v[..j + 1][..j] == v[..j];
  }

  /** The supply recorded below `v[j]` is the unspent value there. */
  lemma SupplyBelow(supply: map<nat, int>, start: int, store: Store, disk: DiskTxPos -> Option<Tx>, ids: seq<nat>,
                    v: seq<nat>, j: nat)
    requires AllStored(store, ids) && AllStored(store, v) && j < |v| && SupplyAlong(supply, store, disk, ids, v, j)
    requires start == UnspentTotal(ReplayIndex(store, ids), disk)
    ensures j == 0 ==> start == UnspentTotal(ReplayIndex(store, ids + v[..j]), disk)
    ensures j > 0 ==> v[j - 1] in supply && supply[v[j - 1]] == UnspentTotal(ReplayIndex(store, ids + v[..j]), disk)
  {
    hide UnspentTotal, ReplayIndex;
    assert ids + v[..0] == ids;
  }

  lemma SupplyStep(supply: map<nat, int>, s: int, store: Store, disk: DiskTxPos -> Option<Tx>, ids: seq<nat>, v: seq<nat>, j: nat)
    requires AllStored(store, ids) && AllStored(store, v) && j < |v| && NoDuplicates(v)
    requires SupplyAlong(supply, store, disk, ids, v, j)
    requires s == UnspentTotal(ReplayIndex(store, ids + v[..j + 1]), disk)
    ensures SupplyAlong(supply[v[j] := s], store, disk, ids, v, j + 1)
  {
    hide UnspentTotal, ReplayIndex;
  }

  lemma NotConnected(store: Store, ids: seq<nat>, v: seq<nat>, j: nat, o: Oracle,
                     disk: DiskTxPos -> Option<Tx>, bestHeight: nat)
    requires AllStored(store, ids) && AllStored(store, v) && j < |v|
    requires !StepConnects(store, ids + v[..j], v[j], o, disk, bestHeight)
    ensures !AllConnect(store, ids, v, o, disk, bestHeight)
  {
    hide StepConnects;
    assert v[..j + 1][..j] == v[..j];
    if AllConnect(store, ids, v, o, disk, bestHeight) {
      ConnectPrefix(store, ids, v, j + 1, o, disk, bestHeight);
    }
  }
}
