/**
 Money supply: the value of all unspent outputs in the index, how each connected block changes it,
 and the bound that the reward checks put on that change.
 */
module Supply {
  import opened Wrappers
  import opened Ledger
  import opened Blocks

  // ---------------------------------------------------------------- sums over maps

  ghost function SumMap(m: map<nat, int>): int {
    if m == map[] then 0
    else
      var k :| k in m;
      m[k] + SumMap(m - {k})
  }

  lemma {:induction false} SumMapSplit(m: map<nat, int>, k: nat)
    requires k in m
    ensures SumMap(m) == m[k] + SumMap(m - {k})
    decreases |m|
  {
    var j :| j in m && SumMap(m) == m[j] + SumMap(m - {j});
    if j != k {
      SumMapSplit(m - {j}, k);
      SumMapSplit(m - {k}, j);
      assert m - {j} - {k} == m - {k} - {j};
    }
  }

  /** Writing one key changes the sum by the difference. */
  lemma SumMapUpdate(m: map<nat, int>, k: nat, v: int)
    ensures SumMap(m[k := v]) == SumMap(m) + v - (if k in m then m[k] else 0)
  {
    SumMapSplit(m[k := v], k);
    assert m[k := v] - {k} == m - {k};
    if k in m {
      SumMapSplit(m, k);
    } else {
      assert m - {k} == m;
    }
  }

  // ---------------------------------------------------------------- unspent value

  /** Total value of the first `k` outputs that are unspent. */
  function UnspentPrefix(spent: seq<DiskTxPos>, outs: seq<TxOut>, k: nat): int
    requires k <= |spent| && k <= |outs|
  {
    if k == 0 then 0
    else UnspentPrefix(spent, outs, k - 1) + if spent[k - 1] == NullPos then outs[k - 1].value else 0
  }

  /** An index entry points at the transaction it is filed under and has one mark per output. */
  predicate GoodEntry(h: nat, e: TxIndex, disk: DiskTxPos -> Option<Tx>) {
    && e.pos != MEMPOOL_POS
    && disk(e.pos).Some?
    && disk(e.pos).value.id == h
    && |disk(e.pos).value.vout| == |e.spent|
  }

  ghost predicate WellIndexed(idx: Index, disk: DiskTxPos -> Option<Tx>) {
    forall h :: h in idx ==> GoodEntry(h, idx[h], disk)
  }

  function EntryWorth(h: nat, e: TxIndex, disk: DiskTxPos -> Option<Tx>): int {
    if GoodEntry(h, e, disk) then UnspentPrefix(e.spent, disk(e.pos).value.vout, |e.spent|) else 0
  }

  function Worths(idx: Index, disk: DiskTxPos -> Option<Tx>): map<nat, int> {
    map h | h in idx :: EntryWorth(h, idx[h], disk)
  }

  /** The total value of unspent outputs in the index. */
  ghost function UnspentTotal(idx: Index, disk: DiskTxPos -> Option<Tx>): int {
    SumMap(Worths(idx, disk))
  }

  lemma {:induction false} SpendOne(spent: seq<DiskTxPos>, outs: seq<TxOut>, n: nat, p: DiskTxPos, k: nat)
    requires n < |spent| && k <= |spent| && k <= |outs| && spent[n] == NullPos && p != NullPos
    ensures UnspentPrefix(spent[n := p], outs, k) ==
      UnspentPrefix(spent, outs, k) - if n < k then outs[n].value else 0
  {
    if k > 0 {
      SpendOne(spent, outs, n, p, k - 1);
    }
  }

  lemma {:induction false} AllUnspent(outs: seq<TxOut>, k: nat)
    requires k <= |outs|
    ensures UnspentPrefix(Nulls(|outs|), outs, k) == SumOut(outs[..k])
  {
    if k > 0 {
      AllUnspent(outs, k - 1);
      assert outs[..k][..k - 1] == outs[..k - 1];
    }
  }

  lemma {:induction false} AllSpent(spent: seq<DiskTxPos>, outs: seq<TxOut>, k: nat)
    requires k <= |spent| && k <= |outs| && NullPos !in spent
    ensures UnspentPrefix(spent, outs, k) == 0
  {
    if k > 0 {
      AllSpent(spent, outs, k - 1);
    }
  }

  /** Value of one named output, read through the index. */
  function OutputValue(idx: Index, disk: DiskTxPos -> Option<Tx>, o: OutPoint): int
    requires Indexed(idx, o) && GoodEntry(o.hash, idx[o.hash], disk)
  {
    disk(idx[o.hash].pos).value.vout[o.n].value
  }

  lemma UpdateWorth(idx: Index, disk: DiskTxPos -> Option<Tx>, h: nat, e: TxIndex)
    ensures UnspentTotal(idx[h := e], disk) ==
      UnspentTotal(idx, disk) + EntryWorth(h, e, disk) - (if h in idx then EntryWorth(h, idx[h], disk) else 0)
  {
    assert Worths(idx[h := e], disk) == Worths(idx, disk)[h := EntryWorth(h, e, disk)];
    SumMapUpdate(Worths(idx, disk), h, EntryWorth(h, e, disk));
  }

  lemma MarkKeepsGood(idx: Index, disk: DiskTxPos -> Option<Tx>, vin: seq<OutPoint>, p: DiskTxPos)
    requires WellIndexed(idx, disk)
    ensures WellIndexed(SetAll(idx, vin, p), disk)
  {
    forall h | h in idx
      ensures GoodEntry(h, SetAll(idx, vin, p)[h], disk)
    {
      assert GoodEntry(h, idx[h], disk);
    }
  }

  /** Marking one more spendable output takes exactly its value out of the total. */
  lemma SpendStepValue(idx: Index, disk: DiskTxPos -> Option<Tx>, vin: seq<OutPoint>, i: nat, p: DiskTxPos)
    requires WellIndexed(idx, disk) && Spendable(idx, vin) && i < |vin| && p != NullPos
    ensures UnspentTotal(SetAll(idx, vin[..i + 1], p), disk) ==
      UnspentTotal(SetAll(idx, vin[..i], p), disk) - OutputValue(idx, disk, vin[i])
  {
    var o, s := vin[i], SetAll(idx, vin[..i], p);
    var e := s[o.hash];
    var e' := e.(spent := e.spent[o.n := p]);
    SetAllStep(idx, vin, i, p);
    assert e.spent[o.n] == NullPos by {
      assert OutPoint(o.hash, o.n) == o;
      assert o !in vin[..i];
    }
    assert GoodEntry(o.hash, idx[o.hash], disk);
    SpendOne(e.spent, disk(e.pos).value.vout, o.n, p, |e.spent|);
    UpdateWorth(s, disk, o.hash, e');
  }

  /** Value of the first `k` outputs that `vin` names, read through the index. */
  ghost function NamedValue(idx: Index, disk: DiskTxPos -> Option<Tx>, vin: seq<OutPoint>, k: nat): int
    requires k <= |vin| && WellIndexed(idx, disk) && AllIndexed(idx, vin)
  {
    if k == 0 then 0 else NamedValue(idx, disk, vin, k - 1) + OutputValue(idx, disk, vin[k - 1])
  }

  /** Marking spendable outputs takes exactly their value out of the total. */
  lemma {:induction false} SpendValue(idx: Index, disk: DiskTxPos -> Option<Tx>, vin: seq<OutPoint>, k: nat, p: DiskTxPos)
    requires WellIndexed(idx, disk) && Spendable(idx, vin) && k <= |vin| && p != NullPos
    ensures UnspentTotal(SetAll(idx, vin[..k], p), disk) == UnspentTotal(idx, disk) - NamedValue(idx, disk, vin, k)
  {
    hide UnspentTotal, SetAll;
    if k == 0 {
      SetNone(idx, p);
    } else {
      SpendValue(idx, disk, vin, k - 1, p);
      SpendStepValue(idx, disk, vin, k - 1, p);
    }
  }

  lemma {:induction false} SumInIsNamedValue(v: Index, disk: DiskTxPos -> Option<Tx>, vin: seq<OutPoint>,
                                             inputs: map<nat, Prev>, k: nat)
    requires WellIndexed(v, disk) && AllIndexed(v, vin) && InputsKnown(vin, inputs) && k <= |vin|
    requires forall i :: 0 <= i < |vin| ==> disk(v[vin[i].hash].pos) == Some(inputs[vin[i].hash].tx)
    ensures SumIn(vin[..k], inputs) == NamedValue(v, disk, vin, k)
  {
    if k > 0 {
      SumInIsNamedValue(v, disk, vin, inputs, k - 1);
      assert vin[..k][..k - 1] == vin[..k - 1];
    }
  }

  /** What ConnectBlock counts as value in is what the spent outputs were worth. */
  lemma ValueInIsNamedValue(db: Index, v: Index, tx: Tx, env: Env)
    requires !tx.IsCoinBase() && TxConnects(db, v, tx, env) && WellIndexed(v, env.disk)
    ensures AllIndexed(v, tx.vin)
    ensures ValueIn(tx, v, env) == NamedValue(v, env.disk, tx.vin, |tx.vin|)
  {
    TxConnectsApplies(db, v, tx, env);
    var inputs := InputsOf(tx, v, env);
    forall i | 0 <= i < |tx.vin|
      ensures env.disk(v[tx.vin[i].hash].pos) == Some(inputs[tx.vin[i].hash].tx)
    {
      var h := tx.vin[i].hash;
      assert Indexed(v, tx.vin[i]);
      assert GoodEntry(h, v[h], env.disk);
      assert Locate(h, v, map[], env, true) == Some(inputs[h]);
    }
    SumInIsNamedValue(v, env.disk, tx.vin, inputs, |tx.vin|);
    assert tx.vin[..|tx.vin|] == tx.vin;
  }

  lemma CoinBaseSpendsNothing(tx: Tx, v: Index, env: Env)
    requires tx.IsCoinBase()
    ensures ValueIn(tx, v, env) == 0
  {
  }

  lemma FreshWorth(tx: Tx, pos: DiskTxPos, disk: DiskTxPos -> Option<Tx>)
    requires pos != MEMPOOL_POS && disk(pos) == Some(tx)
    ensures GoodEntry(tx.id, FreshEntry(tx, pos), disk)
    ensures EntryWorth(tx.id, FreshEntry(tx, pos), disk) == SumOut(tx.vout)
  {
    AllUnspent(tx.vout, |tx.vout|);
    assert tx.vout[..|tx.vout|] == tx.vout;
  }

  /** The old entry of `tx`, if it has one, holds no unspent value. */
  ghost predicate NoUnspent(v: Index, h: nat) {
    h in v ==> NullPos !in v[h].spent
  }

  /** Marking outputs never makes a completely spent entry unspent. */
  lemma MarkKeepsSpent(v: Index, vin: seq<OutPoint>, p: DiskTxPos, h: nat)
    requires NoUnspent(v, h) && p != NullPos
    ensures NoUnspent(SetAll(v, vin, p), h)
  {
  }

  /** Connecting one transaction changes the unspent total by outputs minus inputs. */
  lemma ApplyTxValue(db: Index, v: Index, tx: Tx, pos: DiskTxPos, env: Env)
    requires TxConnects(db, v, tx, env) && WellIndexed(v, env.disk) && NoUnspent(v, tx.id)
    requires pos != NullPos && pos != MEMPOOL_POS && env.disk(pos) == Some(tx)
    ensures WellIndexed(ApplyTx(v, tx, pos), env.disk)
    ensures UnspentTotal(ApplyTx(v, tx, pos), env.disk) ==
      UnspentTotal(v, env.disk) + SumOut(tx.vout) - ValueIn(tx, v, env)
  {
    hide UnspentTotal, TxConnects, ValueIn;
    FreshWorth(tx, pos, env.disk);
    var marked := if tx.IsCoinBase() then v else SetAll(v, tx.vin, pos);
    if !tx.IsCoinBase() {
      TxConnectsApplies(db, v, tx, env);
      ValueInIsNamedValue(db, v, tx, env);
      SpendValue(v, env.disk, tx.vin, |tx.vin|, pos);
      assert tx.vin[..|tx.vin|] == tx.vin;
      MarkKeepsGood(v, env.disk, tx.vin, pos);
      MarkKeepsSpent(v, tx.vin, pos, tx.id);
    } else {
      CoinBaseSpendsNothing(tx, v, env);
    }
    UpdateWorth(marked, env.disk, tx.id, FreshEntry(tx, pos));
    if tx.id in marked {
      AllSpent(marked[tx.id].spent, env.disk(marked[tx.id].pos).value.vout, |marked[tx.id].spent|);
    }
  }

  /** An id the block has not reached yet keeps its entry completely spent. */
  lemma {:induction false} StillNoUnspent(idx: Index, blk: Block, k: nat, h: nat)
    requires k <= |blk.vtx| && NoUnspent(idx, h)
    requires forall i :: 0 <= i < k ==> blk.vtx[i].id != h
    ensures NoUnspent(Applied(idx, blk, k), h)
  {
    if k > 0 {
      StillNoUnspent(idx, blk, k - 1, h);
      MarkKeepsSpent(Applied(idx, blk, k - 1), blk.vtx[k - 1].vin, TxPos(blk, k - 1), h);
    }
  }

  lemma {:induction false} PrefixValue(idx: Index, blk: Block, env: Env, k: nat)
    requires k <= |blk.vtx| && TxsConnect(idx, blk, env, k) && UniqueIds(blk.vtx)
    requires WellIndexed(idx, env.disk) && Stored(env.disk, blk)
    ensures WellIndexed(Applied(idx, blk, k), env.disk)
    ensures UnspentTotal(Applied(idx, blk, k), env.disk) ==
      UnspentTotal(idx, env.disk) + TotalsOf(idx, blk, env, k).valueOut - TotalsOf(idx, blk, env, k).valueIn
  {
    if k > 0 {
      PrefixValue(idx, blk, env, k - 1);
      var tx, v := blk.vtx[k - 1], Applied(idx, blk, k - 1);
      StillNoUnspent(idx, blk, k - 1, tx.id);
      ApplyTxValue(idx, v, tx, TxPos(blk, k - 1), env);
    }
  }

  /**
   Conservation: the value of unspent outputs in the index moves by exactly the change that
   ConnectBlock adds to the money supply, also when completely spent ids are overwritten.
   */
  lemma BlockConservesValue(idx: Index, blk: Block, env: Env)
    requires TxsConnect(idx, blk, env, |blk.vtx|) && UniqueIds(blk.vtx)
    requires WellIndexed(idx, env.disk) && Stored(env.disk, blk)
    ensures WellIndexed(Applied(idx, blk, |blk.vtx|), env.disk)
    ensures UnspentTotal(Applied(idx, blk, |blk.vtx|), env.disk) ==
      UnspentTotal(idx, env.disk) + SupplyChange(idx, blk, env)
  {
    PrefixValue(idx, blk, env, |blk.vtx|);
  }

  // ---------------------------------------------------------------- ordinary transactions create nothing

  /** A transaction that is neither coinbase nor coinstake never raises the value of unspent outputs. */
  lemma OrdinaryCreatesNothing(db: Index, v: Index, tx: Tx, pos: DiskTxPos, env: Env)
    requires TxConnects(db, v, tx, env) && WellIndexed(v, env.disk) && NoUnspent(v, tx.id)
    requires pos != NullPos && pos != MEMPOOL_POS && env.disk(pos) == Some(tx)
    requires !tx.IsCoinBase() && !tx.IsCoinStake()
    ensures SumOut(tx.vout) <= ValueIn(tx, v, env)
    ensures UnspentTotal(ApplyTx(v, tx, pos), env.disk) <= UnspentTotal(v, env.disk)
  {
    ApplyTxValue(db, v, tx, pos, env);
  }

  /** Nor does it in its place in a connected block, where what it gives up is added to the fees. */
  lemma OrdinaryInBlock(idx: Index, blk: Block, env: Env, k: nat)
    requires k < |blk.vtx| && TxsConnect(idx, blk, env, k + 1) && UniqueIds(blk.vtx)
    requires WellIndexed(idx, env.disk) && Stored(env.disk, blk)
    requires !blk.vtx[k].IsCoinBase() && !blk.vtx[k].IsCoinStake()
    ensures var before, after := UnspentTotal(Applied(idx, blk, k), env.disk), UnspentTotal(Applied(idx, blk, k + 1), env.disk);
      && after <= before
      && TotalsOf(idx, blk, env, k + 1).fees == TotalsOf(idx, blk, env, k).fees + before - after
  {
    hide UnspentTotal, TxConnects, ValueIn, WellIndexed;
    PrefixValue(idx, blk, env, k);
    SpentOut(idx, blk, env, k);
    StillNoUnspent(idx, blk, k, blk.vtx[k].id);
    ApplyTxValue(idx, Applied(idx, blk, k), blk.vtx[k], TxPos(blk, k), env);
    OrdinaryCreatesNothing(idx, Applied(idx, blk, k), blk.vtx[k], TxPos(blk, k), env);
  }

  lemma SpentOut(idx: Index, blk: Block, env: Env, k: nat)
    requires k < |blk.vtx| && TxConnects(idx, Applied(idx, blk, k), blk.vtx[k], env)
    ensures NoUnspent(idx, blk.vtx[k].id)
  {
  }

  // ---------------------------------------------------------------- the subsidy bound

  /** What transaction `i` adds to the supply when it is a coinstake, 0 otherwise. */
  function StakeMint(idx: Index, blk: Block, env: Env, i: nat): int
    requires i < |blk.vtx|
  {
    if blk.vtx[i].IsCoinStake() then SumOut(blk.vtx[i].vout) - ValueIn(blk.vtx[i], Applied(idx, blk, i), env) else 0
  }

  /** What coinstakes other than a second transaction add to the supply. */
  function StrayMint(idx: Index, blk: Block, env: Env, k: nat): int
    requires k <= |blk.vtx|
  {
    if k == 0 then 0 else StrayMint(idx, blk, env, k - 1) + if k - 1 == 1 then 0 else StakeMint(idx, blk, env, k - 1)
  }

  /** The totals after `k` transactions of a checked block, split by who minted. */
  lemma {:induction false} SplitTotals(idx: Index, blk: Block, env: Env, k: nat)
    requires CheckBlock(blk) && 1 <= k <= |blk.vtx|
    ensures var t := TotalsOf(idx, blk, env, k);
      && t.valueOut - t.valueIn == SumOut(blk.vtx[0].vout) - t.fees + StrayMint(idx, blk, env, k)
           + (if k > 1 then StakeMint(idx, blk, env, 1) else 0)
      && (blk.IsProofOfStake() ==> t.stakeReward == if k > 1 then StakeMint(idx, blk, env, 1) else 0)
      && (blk.IsProofOfStake() ==> StrayMint(idx, blk, env, k) == 0)
  {
    if k == 1 {
      assert TotalsOf(idx, blk, env, 0) == Totals(0, 0, 0, 0, 0);
      assert StrayMint(idx, blk, env, 0) == 0;
    } else {
      SplitTotals(idx, blk, env, k - 1);
      assert !blk.vtx[k - 1].IsCoinBase();
    }
  }

  /**
   Every connected block raises the supply by at most the subsidy for the best height plus whatever
   coinstakes outside the second place mint; a proof-of-stake block can hold none of those.
   */
  lemma SupplyChangeBounded(idx: Index, blk: Block, env: Env, bestHeight: nat, other: bool)
    requires BlockConnects(idx, blk, env, bestHeight, other)
    ensures SupplyChange(idx, blk, env) <= Subsidy(blk, bestHeight) + StrayMint(idx, blk, env, |blk.vtx|)
    ensures blk.IsProofOfStake() ==> StrayMint(idx, blk, env, |blk.vtx|) == 0
  {
    SplitTotals(idx, blk, env, |blk.vtx|);
    assert CheckTransaction(blk.vtx[0]);
    if blk.IsProofOfStake() {
      assert blk.vtx[0].vout[..0] == [];
      assert SumOut(blk.vtx[0].vout) == 0;
    }
  }

  /** The only coinstake the block may hold is its second transaction. */
  predicate NoStrayCoinStake(blk: Block) {
    forall i :: 0 <= i < |blk.vtx| && i != 1 ==> !blk.vtx[i].IsCoinStake()
  }

  lemma {:induction false} NoStrayMint(idx: Index, blk: Block, env: Env, k: nat)
    requires k <= |blk.vtx| && NoStrayCoinStake(blk)
    ensures StrayMint(idx, blk, env, k) == 0
  {
    if k > 0 {
      NoStrayMint(idx, blk, env, k - 1);
    }
  }

  /** A block whose only possible coinstake is its second transaction mints at most the subsidy. */
  lemma SubsidyBound(idx: Index, blk: Block, env: Env, bestHeight: nat, other: bool)
    requires BlockConnects(idx, blk, env, bestHeight, other) && NoStrayCoinStake(blk)
    ensures SupplyChange(idx, blk, env) <= Subsidy(blk, bestHeight)
  {
    SupplyChangeBounded(idx, blk, env, bestHeight, other);
    NoStrayMint(idx, blk, env, |blk.vtx|);
  }

  /**
   Exactly when a connected block keeps the bound: always with proof of stake, and with proof of work if and
   only if stray coinstakes mint no more than the coinbase left unclaimed.
   */
  lemma SubsidyBoundIff(idx: Index, blk: Block, env: Env, bestHeight: nat, other: bool)
    requires BlockConnects(idx, blk, env, bestHeight, other)
    ensures SupplyChange(idx, blk, env) <= Subsidy(blk, bestHeight) <==>
      blk.IsProofOfStake() ||
      StrayMint(idx, blk, env, |blk.vtx|)
        <= WorkSubsidy(bestHeight) + TotalsOf(idx, blk, env, |blk.vtx|).fees - SumOut(blk.vtx[0].vout)
  {
    SupplyChangeBounded(idx, blk, env, bestHeight, other);
    SplitTotals(idx, blk, env, |blk.vtx|);
  }

  /**
   The reward rule, without naming it: a block whose transactions connect and whose only possible coinstake is its
   second transaction is accepted if and only if it raises the supply by no more than the subsidy.
   */
  lemma RewardIffSupply(idx: Index, blk: Block, env: Env, bestHeight: nat)
    requires CheckBlock(blk) && NoStrayCoinStake(blk) && TxsConnect(idx, blk, env, |blk.vtx|)
    requires TotalsOf(idx, blk, env, |blk.vtx|).sigOps <= MAX_BLOCK_SIGOPS
    ensures BlockConnects(idx, blk, env, bestHeight, true) <==> SupplyChange(idx, blk, env) <= Subsidy(blk, bestHeight)
  {
    hide TotalsOf, StakeMint, TxsConnect;
    SplitTotals(idx, blk, env, |blk.vtx|);
    NoStrayMint(idx, blk, env, |blk.vtx|);
    SecondMint(idx, blk, env);
    if blk.IsProofOfStake() {
      EmptyCoinBase(blk);
    }
  }

  lemma SecondMint(idx: Index, blk: Block, env: Env)
    ensures |blk.vtx| > 1 && !blk.IsProofOfStake() ==> StakeMint(idx, blk, env, 1) == 0
  {
  }

  lemma EmptyCoinBase(blk: Block)
    requires CheckBlock(blk) && blk.IsProofOfStake()
    ensures SumOut(blk.vtx[0].vout) == 0
  {
    assert blk.vtx[0].vout[..0] == [];
  }

  // ---------------------------------------------------------------- a stray coinstake breaks the bound

  function StrayPrev(): Tx {
    Tx(7, 0, [OutPoint(6, 0)], [TxOut(1, false), TxOut(1, false)], 100, 0)
  }

  /** A proof-of-work block whose third transaction is a coinstake minting 10000 coins. */
  function StrayBlock(): Block {
    Block(100, 99,
          [Tx(1, 0, [OutPoint(0, 0xFFFF_FFFF)], [TxOut(0, false)], 100, 0),
           Tx(2, 0, [OutPoint(7, 0)], [TxOut(1, false)], 100, 0),
           Tx(3, 0, [OutPoint(7, 1)], [TxOut(0, true), TxOut(10_000 * COIN, false)], 100, 0)],
          0, 0)
  }

  function StrayEnv(): Env {
    Env(p => if p == At(9, 9, 9) then Some(StrayPrev()) else None, map[], _ => false, (_, _, _) => true, _ => 0)
  }

  function StrayIndex(): Index {
    map[7 := TxIndex(At(9, 9, 9), [NullPos, NullPos])]
  }

  lemma StrayInputs(i: nat)
    requires i == 1 || i == 2
    ensures var tx, v, env := StrayBlock().vtx[i], Applied(StrayIndex(), StrayBlock(), i), StrayEnv();
      && TxConnects(StrayIndex(), v, tx, env)
      && ValueIn(tx, v, env) == 1
  {
    var tx, v, env := StrayBlock().vtx[i], Applied(StrayIndex(), StrayBlock(), i), StrayEnv();
    assert v[7].pos == At(9, 9, 9) && |v[7].spent| == 2;
    assert v[7].spent[i - 1] == NullPos;
    var inputs := InputsOf(tx, v, env);
    assert tx.vin[..1] == tx.vin;
    assert tx.vin[0].hash == 7;
    assert inputs[7] == Prev(v[7], StrayPrev());
    assert SumIn(tx.vin, inputs) == 1 by {
      assert tx.vin[..0] == [];
    }
    assert UnspentAndSigned(tx, 0, inputs, env);
    assert InputOk(tx, 0, inputs, env);
  }

  lemma StrayCoinBase()
    ensures TxConnects(StrayIndex(), Applied(StrayIndex(), StrayBlock(), 0), StrayBlock().vtx[0], StrayEnv())
  {
  }

  lemma StraySums()
    ensures |StrayBlock().vtx| == 3
    ensures forall i :: 0 <= i < 3 ==> OutputsInRange(StrayBlock().vtx[i].vout)
    ensures SumOut(StrayBlock().vtx[0].vout) == 0
    ensures SumOut(StrayBlock().vtx[1].vout) == 1
    ensures SumOut(StrayBlock().vtx[2].vout) == 10_000 * COIN
  {
    forall i | 0 <= i < 3
      ensures OutputsInRange(StrayBlock().vtx[i].vout)
      ensures SumOut(StrayBlock().vtx[i].vout) == if i == 0 then 0 else if i == 1 then 1 else 10_000 * COIN
    {
      var outs := StrayBlock().vtx[i].vout;
      assert outs[..1] == [outs[0]];
      assert SumOut([outs[0]]) == outs[0].value;
      assert outs[..|outs|] == outs;
    }
  }

  lemma StrayShape()
    ensures CheckBlock(StrayBlock())
  {
    StraySums();
    forall i | 0 <= i < 3
      ensures CheckTransaction(StrayBlock().vtx[i])
    {
    }
  }

  lemma StrayConnects()
    ensures TxsConnect(StrayIndex(), StrayBlock(), StrayEnv(), 3)
  {
    hide Applied, TxConnects, StrayIndex, StrayEnv, ValueIn;
    StrayCoinBase();
    StrayInputs(1);
    StrayInputs(2);
    assert TxsConnect(StrayIndex(), StrayBlock(), StrayEnv(), 1);
    assert TxsConnect(StrayIndex(), StrayBlock(), StrayEnv(), 2);
  }

  lemma StrayAddTx(valueIn: int)
    ensures AddTx(Totals(0, 0, 0, 0, 0), StrayBlock().vtx[0], valueIn, 0) == Totals(0, 0, 0, 0, 0)
    ensures AddTx(Totals(0, 0, 0, 0, 0), StrayBlock().vtx[1], 1, 0) == Totals(0, 1, 1, 0, 0)
    ensures AddTx(Totals(0, 1, 1, 0, 0), StrayBlock().vtx[2], 1, 0) ==
      Totals(0, 2, 10_000 * COIN + 1, 0, 10_000 * COIN - 1)
  {
    hide StrayBlock, SumOut;
    StrayKinds();
    StraySums();
  }

  lemma StrayKinds()
    ensures var vtx := StrayBlock().vtx;
      && |vtx| == 3 && vtx[0].sigOps == vtx[1].sigOps == vtx[2].sigOps == 0
      && vtx[0].IsCoinBase() && !vtx[1].IsCoinBase() && !vtx[2].IsCoinBase()
      && !vtx[1].IsCoinStake() && vtx[2].IsCoinStake()
  {
  }

  lemma StrayTotals()
    ensures TotalsOf(StrayIndex(), StrayBlock(), StrayEnv(), 3) ==
      Totals(0, 2, 10_000 * COIN + 1, 0, 10_000 * COIN - 1)
  {
    hide Applied, TxConnects, StrayIndex, ValueIn, AddTx, StrayBlock;
    var idx, blk, env := StrayIndex(), StrayBlock(), StrayEnv();
    assert |blk.vtx| == 3 by {
      StrayLength();
    }
    StrayInputs(1);
    StrayInputs(2);
    StrayAddTx(ValueIn(blk.vtx[0], Applied(idx, blk, 0), env));
    assert TotalsOf(idx, blk, env, 0) == Totals(0, 0, 0, 0, 0);
    assert TotalsOf(idx, blk, env, 1) == Totals(0, 0, 0, 0, 0);
    assert TotalsOf(idx, blk, env, 2) == Totals(0, 1, 1, 0, 0);
  }

  lemma StrayLength()
    ensures |StrayBlock().vtx| == 3
  {
  }

  /** Such a block connects and mints far more than the subsidy: the shape condition is needed. */
  lemma StrayCoinStakeOvermints()
    ensures BlockConnects(StrayIndex(), StrayBlock(), StrayEnv(), 1, true)
    ensures !NoStrayCoinStake(StrayBlock())
    ensures SupplyChange(StrayIndex(), StrayBlock(), StrayEnv()) > Subsidy(StrayBlock(), 1)
  {
    hide TxsConnect, TotalsOf;
    StrayShape();
    StraySums();
    StrayConnects();
    StrayTotals();
    assert StrayBlock().vtx[2].IsCoinStake();
  }
}
