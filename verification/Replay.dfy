/**
 The spent-output index as a cache of "replay the main chain": what replaying a list of blocks
 yields, and how connecting or disconnecting the last block moves along that replay.
 */
module Replay {
  import opened Wrappers
  import opened Sequences
  import opened Ledger
  import opened Blocks
  import opened Supply

  type Store = map<nat, Block>

  predicate AllStored(store: Store, ids: seq<nat>) {
    forall i :: 0 <= i < |ids| ==> ids[i] in store
  }

  /** The index after connecting the blocks `ids` in order to an empty index. */
  function ReplayIndex(store: Store, ids: seq<nat>): Index
    requires AllStored(store, ids)
  {
    if ids == [] then map[]
    else
      var blk := store[ids[|ids| - 1]];
      Applied(ReplayIndex(store, ids[..|ids| - 1]), blk, |blk.vtx|)
  }

  /** Every transaction of `blk` spends only existing unspent outputs when its turn comes. */
  predicate BlockApplies(idx: Index, blk: Block) {
    forall i :: 0 <= i < |blk.vtx| ==> CanApply(Applied(idx, blk, i), blk.vtx[i])
  }

  predicate ChainApplies(store: Store, ids: seq<nat>)
    requires AllStored(store, ids)
  {
    ids == [] ||
    (ChainApplies(store, ids[..|ids| - 1]) &&
     BlockApplies(ReplayIndex(store, ids[..|ids| - 1]), store[ids[|ids| - 1]]))
  }

  function TxIds(vtx: seq<Tx>): set<nat> {
    set i | 0 <= i < |vtx| :: vtx[i].id
  }

  /** All transaction ids in the blocks `ids`. */
  function IdsOf(store: Store, ids: seq<nat>): set<nat>
    requires AllStored(store, ids)
  {
    if ids == [] then {} else IdsOf(store, ids[..|ids| - 1]) + TxIds(store[ids[|ids| - 1]].vtx)
  }

  /** Transaction ids are distinct along the blocks `ids`. */
  predicate DistinctIds(store: Store, ids: seq<nat>)
    requires AllStored(store, ids)
  {
    ids == [] ||
    (DistinctIds(store, ids[..|ids| - 1]) && UniqueIds(store[ids[|ids| - 1]].vtx) &&
     TxIds(store[ids[|ids| - 1]].vtx) !! IdsOf(store, ids[..|ids| - 1]))
  }

  lemma {:induction false} ReplayKeys(store: Store, ids: seq<nat>)
    requires AllStored(store, ids)
    ensures ReplayIndex(store, ids).Keys == IdsOf(store, ids)
  {
    if ids != [] {
      var init, blk := ids[..|ids| - 1], store[ids[|ids| - 1]];
      ReplayKeys(store, init);
      AppliedKeys(ReplayIndex(store, init), blk, |blk.vtx|);
    }
  }

  /** A block that comes last in a chain with distinct ids brings only fresh ids. */
  lemma LastIsFresh(store: Store, ids: seq<nat>)
    requires AllStored(store, ids) && ids != [] && DistinctIds(store, ids)
    ensures FreshIds(ReplayIndex(store, ids[..|ids| - 1]), store[ids[|ids| - 1]].vtx)
  {
    var init, vtx := ids[..|ids| - 1], store[ids[|ids| - 1]].vtx;
    ReplayKeys(store, init);
    forall i | 0 <= i < |vtx|
      ensures vtx[i].id !in ReplayIndex(store, init)
    {
      assert vtx[i].id in TxIds(vtx);
    }
  }

  /** Disconnecting the last replayed block steps the replay back by one block. */
  lemma DisconnectStepsBack(store: Store, ids: seq<nat>)
    requires AllStored(store, ids) && ids != [] && DistinctIds(store, ids) && ChainApplies(store, ids)
    ensures CanUndoAll(ReplayIndex(store, ids), store[ids[|ids| - 1]].vtx)
    ensures Undone(ReplayIndex(store, ids), store[ids[|ids| - 1]].vtx) == ReplayIndex(store, ids[..|ids| - 1])
  {
    var init, blk := ids[..|ids| - 1], store[ids[|ids| - 1]];
    LastIsFresh(store, ids);
    UndoneApplied(ReplayIndex(store, init), blk, |blk.vtx|);
    assert blk.vtx[..|blk.vtx|] == blk.vtx;
  }

  /** Connecting a block steps the replay forward by one block. */
  lemma ConnectStepsForward(store: Store, ids: seq<nat>, b: nat, env: Env)
    requires AllStored(store, ids) && b in store && ChainApplies(store, ids)
    requires TxsConnect(ReplayIndex(store, ids), store[b], env, |store[b].vtx|)
    ensures AllStored(store, ids + [b]) && ChainApplies(store, ids + [b])
    ensures ReplayIndex(store, ids + [b]) == Applied(ReplayIndex(store, ids), store[b], |store[b].vtx|)
  {
    var idx, blk := ReplayIndex(store, ids), store[b];
    assert (ids + [b])[..|ids|] == ids;
    forall i | 0 <= i < |blk.vtx|
      ensures CanApply(Applied(idx, blk, i), blk.vtx[i])
    {
      ConnectedApplies(idx, blk, env, i);
    }
  }

  lemma {:induction false} AppliedWell(idx: Index, blk: Block, disk: DiskTxPos -> Option<Tx>, k: nat)
    requires k <= |blk.vtx| && WellIndexed(idx, disk) && Stored(disk, blk)
    ensures WellIndexed(Applied(idx, blk, k), disk)
  {
    if k > 0 {
      AppliedWell(idx, blk, disk, k - 1);
      MarkKeepsGood(Applied(idx, blk, k - 1), disk, blk.vtx[k - 1].vin, TxPos(blk, k - 1));
      FreshWorth(blk.vtx[k - 1], TxPos(blk, k - 1), disk);
    }
  }

  ghost predicate AllOnDisk(store: Store, disk: DiskTxPos -> Option<Tx>) {
    forall b :: b in store ==> Stored(disk, store[b])
  }

  /** Replaying stored blocks gives an index whose entries point at their transactions. */
  lemma {:induction false} ReplayWell(store: Store, ids: seq<nat>, disk: DiskTxPos -> Option<Tx>)
    requires AllStored(store, ids) && AllOnDisk(store, disk)
    ensures WellIndexed(ReplayIndex(store, ids), disk)
  {
    if ids != [] {
      var blk := store[ids[|ids| - 1]];
      ReplayWell(store, ids[..|ids| - 1], disk);
      AppliedWell(ReplayIndex(store, ids[..|ids| - 1]), blk, disk, |blk.vtx|);
    }
  }

  /** Adding a block to the store does not change what older blocks replay to. */
  lemma {:induction false} StoreGrows(store: Store, n: nat, blk: Block, ids: seq<nat>)
    requires AllStored(store, ids) && n !in store
    ensures AllStored(store[n := blk], ids)
    ensures ReplayIndex(store[n := blk], ids) == ReplayIndex(store, ids)
    ensures ChainApplies(store[n := blk], ids) == ChainApplies(store, ids)
    ensures IdsOf(store[n := blk], ids) == IdsOf(store, ids)
    ensures DistinctIds(store[n := blk], ids) == DistinctIds(store, ids)
  {
    if ids != [] {
      StoreGrows(store, n, blk, ids[..|ids| - 1]);
    }
  }

  /** Distinctness holds of every prefix. */
  lemma {:induction false} DistinctPrefix(store: Store, ids: seq<nat>, k: nat)
    requires AllStored(store, ids) && DistinctIds(store, ids) && k <= |ids|
    ensures DistinctIds(store, ids[..k])
  {
    if k == |ids| {
      assert ids[..k] == ids;
    } else {
      DistinctPrefix(store, ids[..|ids| - 1], k);
      assert ids[..|ids| - 1][..k] == ids[..k];
    }
  }

  lemma {:induction false} AppliesPrefix(store: Store, ids: seq<nat>, k: nat)
    requires AllStored(store, ids) && ChainApplies(store, ids) && k <= |ids|
    ensures ChainApplies(store, ids[..k])
  {
    if k == |ids| {
      assert ids[..k] == ids;
    } else {
      AppliesPrefix(store, ids[..|ids| - 1], k);
      assert ids[..|ids| - 1][..k] == ids[..k];
    }
  }

  // ---------------------------------------------------------------- at most one spender

  /** The outputs named by the first `k` transactions of a block, coinbases aside. */
  function BlockInputs(blk: Block, k: nat): seq<OutPoint>
    requires k <= |blk.vtx|
  {
    if k == 0 then []
    else BlockInputs(blk, k - 1) + InputsToSpend(blk.vtx[k - 1])
  }

  /** Every output named by any input of the blocks `ids`, in order of spending. */
  function ChainInputs(store: Store, ids: seq<nat>): seq<OutPoint>
    requires AllStored(store, ids)
  {
    if ids == [] then []
    else
      var blk := store[ids[|ids| - 1]];
      ChainInputs(store, ids[..|ids| - 1]) + BlockInputs(blk, |blk.vtx|)
  }

  /** Every output in `s` is marked spent. */
  ghost predicate AllMarked(idx: Index, s: seq<OutPoint>) {
    forall i :: 0 <= i < |s| ==> Indexed(idx, s[i]) && idx[s[i].hash].spent[s[i].n] != NullPos
  }

  /** The outputs marked spent in `idx` are exactly those in `s`. */
  ghost predicate SpentExactly(idx: Index, s: seq<OutPoint>) {
    && AllMarked(idx, s)
    && forall h, n: nat :: h in idx && n < |idx[h].spent| && idx[h].spent[n] != NullPos ==> OutPoint(h, n) in s
  }

  function InputsToSpend(tx: Tx): seq<OutPoint> {
    if tx.IsCoinBase() then [] else tx.vin
  }

  /** One more fresh transaction: earlier spends stay marked, and its own inputs are new. */
  lemma SpendOnce(idx: Index, tx: Tx, pos: DiskTxPos, s: seq<OutPoint>)
    requires CanApply(idx, tx) && tx.id !in idx && pos != NullPos
    requires AllMarked(idx, s) && NoDuplicates(s)
    ensures AllMarked(ApplyTx(idx, tx, pos), s + InputsToSpend(tx)) && NoDuplicates(s + InputsToSpend(tx))
  {
    var ins := InputsToSpend(tx);
    var idx' := ApplyTx(idx, tx, pos);
    forall i | 0 <= i < |s + ins|
      ensures Indexed(idx', (s + ins)[i]) && idx'[(s + ins)[i].hash].spent[(s + ins)[i].n] != NullPos
    {
      var o := (s + ins)[i];
      assert OutPoint(o.hash, o.n) == o;
      if i < |s| {
        assert Indexed(idx, s[i]);
      } else {
        assert o == ins[i - |s|] && o in tx.vin;
      }
    }
    forall i, j | 0 <= i < j < |s + ins|
      ensures (s + ins)[i] != (s + ins)[j]
    {
      if i < |s| && j >= |s| {
        assert idx[s[i].hash].spent[s[i].n] != NullPos;
        assert ins[j - |s|] == (s + ins)[j];
      }
    }
  }

  /** And nothing else becomes marked. */
  lemma SpendOnlyInputs(idx: Index, tx: Tx, pos: DiskTxPos, s: seq<OutPoint>)
    requires CanApply(idx, tx) && tx.id !in idx && pos != NullPos && SpentExactly(idx, s) && NoDuplicates(s)
    ensures SpentExactly(ApplyTx(idx, tx, pos), s + InputsToSpend(tx))
  {
    SpendOnce(idx, tx, pos, s);
    var ins, idx' := InputsToSpend(tx), ApplyTx(idx, tx, pos);
    forall h, n: nat | h in idx' && n < |idx'[h].spent| && idx'[h].spent[n] != NullPos
      ensures OutPoint(h, n) in s + ins
    {
      assert h != tx.id;
      assert OutPoint(h, n) in ins || idx[h].spent[n] != NullPos;
    }
  }

  /** Transaction `k` of a fresh block is applicable when its turn comes, and its id is still new. */
  lemma NextIsFresh(idx: Index, blk: Block, k: nat)
    requires k < |blk.vtx| && BlockApplies(idx, blk) && UniqueIds(blk.vtx) && FreshIds(idx, blk.vtx)
    ensures CanApply(Applied(idx, blk, k), blk.vtx[k]) && blk.vtx[k].id !in Applied(idx, blk, k)
  {
    hide Applied, CanApply, UniqueIds, FreshIds;
    StillNew(idx, blk, k);
  }

  lemma SpendStep(v: Index, tx: Tx, pos: DiskTxPos, s: seq<OutPoint>)
    requires CanApply(v, tx) && tx.id !in v && pos != NullPos && SpentExactly(v, s) && NoDuplicates(s)
    ensures SpentExactly(ApplyTx(v, tx, pos), s + InputsToSpend(tx)) && NoDuplicates(s + InputsToSpend(tx))
  {
    hide CanApply, ApplyTx, InputsToSpend, NoDuplicates, AllMarked;
    SpendOnce(v, tx, pos, s);
    SpendOnlyInputs(v, tx, pos, s);
  }

  lemma {:induction false} BlockSpendsOnce(idx: Index, blk: Block, k: nat, s: seq<OutPoint>)
    requires k <= |blk.vtx| && BlockApplies(idx, blk) && UniqueIds(blk.vtx) && FreshIds(idx, blk.vtx)
    requires SpentExactly(idx, s) && NoDuplicates(s)
    ensures SpentExactly(Applied(idx, blk, k), s + BlockInputs(blk, k)) && NoDuplicates(s + BlockInputs(blk, k))
  {
    hide SpentExactly, AllMarked, ApplyTx, CanApply, InputsToSpend, NoDuplicates, BlockApplies, UniqueIds, FreshIds;
    if k == 0 {
      assert s + BlockInputs(blk, 0) == s;
    } else {
      BlockSpendsOnce(idx, blk, k - 1, s);
      NextIsFresh(idx, blk, k - 1);
      var tx, s' := blk.vtx[k - 1], s + BlockInputs(blk, k - 1);
      SpendStep(Applied(idx, blk, k - 1), tx, TxPos(blk, k - 1), s');
      assert s + BlockInputs(blk, k) == s' + InputsToSpend(tx);
    }
  }

  /**
   Along any chain that replays with distinct ids, no output is ever named by two inputs, and the
   outputs the index marks as spent are exactly the ones some input names.
   */
  lemma {:induction false} AtMostOneSpender(store: Store, ids: seq<nat>)
    requires AllStored(store, ids) && ChainApplies(store, ids) && DistinctIds(store, ids)
    ensures NoDuplicates(ChainInputs(store, ids))
    ensures SpentExactly(ReplayIndex(store, ids), ChainInputs(store, ids))
  {
    if ids != [] {
      var init, blk := ids[..|ids| - 1], store[ids[|ids| - 1]];
      AtMostOneSpender(store, init);
      LastIsFresh(store, ids);
      BlockSpendsOnce(ReplayIndex(store, init), blk, |blk.vtx|, ChainInputs(store, init));
    }
  }
}
