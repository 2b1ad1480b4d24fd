/**
 What the block assembler's template is good for: it spends every output once, in dependency order,
 and the proof-of-work block built from it is one that ConnectBlock accepts.
 */
module Assembled {
  import opened Wrappers
  import opened Sequences
  import opened Ledger
  import opened Blocks
  import opened Replay
  import opened Miner

  // ---------------------------------------------------------------- order and single spending

  lemma {:induction false} TrialKeys(db: Index, vtx: seq<Tx>)
    ensures TrialIndex(db, vtx).Keys == db.Keys + TxIds(vtx)
  {
    if vtx != [] {
      var init, tx := vtx[..|vtx| - 1], vtx[|vtx| - 1];
      TrialKeys(db, init);
      TxIdsAppend(init, tx);
      assert vtx == init + [tx];
    }
  }

  lemma {:induction false} TrialPrefix(db: Index, vtx: seq<Tx>, env: Env, k: nat)
    requires k <= |vtx| && TrialConnects(db, vtx, env)
    ensures TrialConnects(db, vtx[..k], env)
  {
    hide Spends, TrialIndex;
    if k < |vtx| {
      TrialPrefix(db, vtx[..|vtx| - 1], env, k);
      assert vtx[..|vtx| - 1][..k] == vtx[..k];
    } else {
      assert vtx[..k] == vtx;
    }
  }

  lemma SpendsFound(v: Index, tx: Tx, env: Env, i: nat)
    requires Spends(v, tx, env) && i < |tx.vin|
    ensures tx.vin[i].hash in v
  {
    assert Locate(tx.vin[i].hash, v, map[], env, true).Some?;
  }

  /** Every input of a template transaction is in the chain or an earlier template transaction's. */
  lemma InputsComeEarlier(db: Index, vtx: seq<Tx>, env: Env, k: nat, i: nat)
    requires TrialConnects(db, vtx, env) && k < |vtx| && i < |vtx[k].vin|
    ensures vtx[k].vin[i].hash in db || vtx[k].vin[i].hash in TxIds(vtx[..k])
  {
    hide Spends, TrialIndex, TxIds;
    TrialPrefix(db, vtx, env, k + 1);
    assert vtx[..k + 1][..k] == vtx[..k];
    SpendsFound(TrialIndex(db, vtx[..k]), vtx[k], env, i);
    TrialKeys(db, vtx[..k]);
  }

  /** All outputs the transactions name, in order. */
  function SpentBy(vtx: seq<Tx>): seq<OutPoint> {
    if vtx == [] then [] else SpentBy(vtx[..|vtx| - 1]) + InputsToSpend(vtx[|vtx| - 1])
  }

  lemma SpendsApplies(v: Index, tx: Tx, env: Env)
    requires Spends(v, tx, env)
    ensures CanApply(v, tx)
  {
    ConnectedIsSpendable(tx, InputsOf(tx, v, env), v, map[], env);
    assert View(v, map[]) == v;
  }

  lemma {:induction false} SpentOnce(db: Index, vtx: seq<Tx>, env: Env)
    requires TrialConnects(db, vtx, env) && UniqueIds(vtx) && FreshIds(db, vtx)
    ensures AllMarked(TrialIndex(db, vtx), SpentBy(vtx)) && NoDuplicates(SpentBy(vtx))
  {
    hide Spends, ApplyTx, CanApply, InputsToSpend;
    if vtx != [] {
      var init, tx := vtx[..|vtx| - 1], vtx[|vtx| - 1];
      SpentOnce(db, init, env);
      SpendsApplies(TrialIndex(db, init), tx, env);
      TrialKeys(db, init);
      SpendOnce(TrialIndex(db, init), tx, MEMPOOL_POS, SpentBy(init));
    }
  }

  /** Every input comes from the chain or from an earlier transaction, and a pool parent always comes earlier. */
  ghost predicate InOrder(j: Job, vtx: seq<Tx>) {
    forall k: nat, i: nat :: k < |vtx| && i < |vtx[k].vin| ==>
      var h := vtx[k].vin[i].hash;
      (h in j.db || h in TxIds(vtx[..k])) && (h in j.env.mempool ==> h in TxIds(vtx[..k]))
  }

  /** CreateNewBlock: the transactions behind the coinbase, the fees and what the coinbase may claim. */
  method CreateNewBlock(j: Job, bestHeight: nat) returns (vtx: seq<Tx>, fees: int, reward: int, ghost taken: seq<nat>)
    requires PoolOk(j)
    ensures Selected(j, vtx) && TrialConnects(j.db, vtx, j.env)
    ensures forall k :: 0 <= k < |vtx| ==>
      && vtx[k].time <= j.policy.adjustedTime && (j.policy.proofOfStake ==> vtx[k].time <= j.policy.coinbaseTime)
      && !vtx[k].IsCoinBase() && !vtx[k].IsCoinStake() && j.isFinal(vtx[k])
    ensures NoDuplicates(taken) && AllPooled(j, taken) && InRankOrder(j, taken) && vtx == Offered(j, taken).vtx
    ensures forall h :: h in taken <==> Eligible(j, h) && DependsOn(j, j.env.mempool[h]) <= TxIds(vtx)
    ensures InOrder(j, vtx)
    ensures NoDuplicates(SpentBy(vtx))
    ensures fees == TrialFees(j.db, vtx, j.env)
    ensures reward == if j.policy.proofOfStake then 0 else WorkSubsidy(bestHeight) + fees
  {
    hide TrialIndex, TrialConnects, TrialFees, NoDuplicates, WorkSubsidy, NoneDangling, InRankOrder, Offered, DependsOn;
    var t;
    t, taken := Assemble(j);
    vtx, fees := t.vtx, t.fees;
    reward := if j.policy.proofOfStake then 0 else WorkSubsidy(bestHeight) + fees;
    SpentOnce(j.db, vtx, j.env);
    assert forall k :: 0 <= k < |vtx| ==> vtx[k].id in TxIds(vtx);
    forall k: nat, i: nat | k < |vtx| && i < |vtx[k].vin|
      ensures var h := vtx[k].vin[i].hash;
        (h in j.db || h in TxIds(vtx[..k])) && (h in j.env.mempool ==> h in TxIds(vtx[..k]))
    {
      InputsComeEarlier(j.db, vtx, j.env, k, i);
    }
  }

  // ---------------------------------------------------------------- the trial run against ConnectBlock

  /** The kinds of transaction that must mature before they are spent. */
  predicate Generated(tx: Tx) {
    tx.IsCoinBase() || tx.IsCoinStake()
  }

  /**
   Two index entries for `h` that a spender cannot tell apart; an entry that must mature is stored in the
   same place, one of the positions `kept`.
   */
  ghost predicate SameEntry(h: nat, a: TxIndex, b: TxIndex, env: Env, env': Env, kept: set<DiskTxPos>) {
    && |a.spent| == |b.spent|
    && (forall n :: 0 <= n < |a.spent| ==> (a.spent[n] == NullPos <==> b.spent[n] == NullPos))
    && (ReadTx(h, a, env).Some? ==>
          && ReadTx(h, b, env').Some?
          && ReadTx(h, b, env').value.tx == ReadTx(h, a, env).value.tx
          && (Generated(ReadTx(h, a, env).value.tx) ==> a.pos == b.pos && a.pos in kept))
  }

  /** Whatever `v` offers under `env`, `w` offers under `env'`. */
  ghost predicate Simulates(w: Index, v: Index, env: Env, env': Env, kept: set<DiskTxPos>) {
    forall h :: h in v ==> h in w && SameEntry(h, v[h], w[h], env, env', kept)
  }

  /** Whatever is mature at one of the positions `kept` for `env` is mature for `env'`. */
  ghost predicate NoYounger(env: Env, env': Env, kept: set<DiskTxPos>) {
    forall a: TxIndex, b: TxIndex :: a.pos == b.pos && a.pos in kept && env'.immature(b) ==> env.immature(a)
  }

  /** `env'` asks no more of `tx` than `env` does: of its signatures and of the age of what it spends. */
  ghost predicate AsksNoMore(env: Env, env': Env, tx: Tx, kept: set<DiskTxPos>) {
    && NoYounger(env, env', kept)
    && (forall p: Tx, i: nat :: env.sigOk(p, tx, i) ==> env'.sigOk(p, tx, i))
  }

  lemma SameInput(v: Index, w: Index, tx: Tx, env: Env, env': Env, kept: set<DiskTxPos>, i: nat)
    requires Simulates(w, v, env, env', kept) && InputsAvailable(tx, v, map[], env, true) && i < |tx.vin|
    ensures Locate(tx.vin[i].hash, w, map[], env', true).Some?
    ensures InputInRange(tx.vin[i], Locate(tx.vin[i].hash, w, map[], env', true).value)
    ensures SameEntry(tx.vin[i].hash, v[tx.vin[i].hash], w[tx.vin[i].hash], env, env', kept)
  {
    var h := tx.vin[i].hash;
    assert Locate(h, v, map[], env, true).Some?;
    assert InputInRange(tx.vin[i], Locate(h, v, map[], env, true).value);
    assert SameEntry(h, v[h], w[h], env, env', kept);
  }

  /** The inputs as fetched from either index hold the same transactions. */
  ghost predicate SameInputs(vin: seq<OutPoint>, m: map<nat, Prev>, m': map<nat, Prev>, kept: set<DiskTxPos>) {
    forall i :: 0 <= i < |vin| ==> var h := vin[i].hash;
      && h in m && h in m'
      && m[h].tx == m'[h].tx
      && |m[h].index.spent| == |m'[h].index.spent|
      && (forall n :: 0 <= n < |m[h].index.spent| ==> (m[h].index.spent[n] == NullPos <==> m'[h].index.spent[n] == NullPos))
      && (Generated(m[h].tx) ==> m[h].index.pos == m'[h].index.pos && m[h].index.pos in kept)
  }

  lemma FetchSame(v: Index, w: Index, tx: Tx, env: Env, env': Env, kept: set<DiskTxPos>)
    requires Simulates(w, v, env, env', kept) && InputsAvailable(tx, v, map[], env, true)
    ensures InputsAvailable(tx, w, map[], env', true)
    ensures SameInputs(tx.vin, InputsOf(tx, v, env), InputsOf(tx, w, env'), kept)
  {
    hide SameEntry, InputInRange, Simulates;
    forall i | 0 <= i < |tx.vin|
      ensures Locate(tx.vin[i].hash, w, map[], env', true).Some?
      ensures InputInRange(tx.vin[i], Locate(tx.vin[i].hash, w, map[], env', true).value)
    {
      SameInput(v, w, tx, env, env', kept, i);
    }
    FetchedSame(v, w, tx, env, env', kept);
  }

  lemma FetchedSame(v: Index, w: Index, tx: Tx, env: Env, env': Env, kept: set<DiskTxPos>)
    requires Simulates(w, v, env, env', kept) && InputsAvailable(tx, v, map[], env, true)
    requires InputsAvailable(tx, w, map[], env', true)
    ensures SameInputs(tx.vin, InputsOf(tx, v, env), InputsOf(tx, w, env'), kept)
  {
    hide Simulates, InputInRange, InputsAvailable;
    var m, m' := InputsOf(tx, v, env), InputsOf(tx, w, env');
    forall i | 0 <= i < |tx.vin|
      ensures var h := tx.vin[i].hash;
        && h in m && h in m' && h in v && h in w
        && m[h].index == v[h] && m'[h].index == w[h]
        && ReadTx(h, v[h], env) == Some(m[h]) && ReadTx(h, w[h], env') == Some(m'[h])
        && SameEntry(h, v[h], w[h], env, env', kept)
    {
      SameInput(v, w, tx, env, env', kept, i);
      assert Locate(tx.vin[i].hash, v, map[], env, true) == Some(m[tx.vin[i].hash]);
      assert Locate(tx.vin[i].hash, w, map[], env', true) == Some(m'[tx.vin[i].hash]);
    }
  }

  lemma {:induction false} SameSum(vin: seq<OutPoint>, m: map<nat, Prev>, m': map<nat, Prev>, kept: set<DiskTxPos>)
    requires InputsKnown(vin, m) && InputsKnown(vin, m') && SameInputs(vin, m, m', kept)
    ensures SumIn(vin, m) == SumIn(vin, m')
  {
    if vin != [] {
      SameSum(vin[..|vin| - 1], m, m', kept);
    }
  }

  lemma ConnectSame(tx: Tx, m: map<nat, Prev>, m': map<nat, Prev>, env: Env, env': Env, kept: set<DiskTxPos>)
    requires AsksNoMore(env, env', tx, kept) && InputsKnown(tx.vin, m) && InputsKnown(tx.vin, m') && SameInputs(tx.vin, m, m', kept)
    requires InputsConnect(tx, m, env)
    ensures InputsConnect(tx, m', env')
  {
    forall i | 0 <= i < |tx.vin|
      ensures InputOk(tx, i, m', env') && UnspentAndSigned(tx, i, m', env')
    {
      assert InputOk(tx, i, m, env) && UnspentAndSigned(tx, i, m, env);
      SameSum(tx.vin[..i + 1], m, m', kept);
    }
    SameSum(tx.vin, m, m', kept);
  }

  /** A transaction that spends from `v` spends the same value from anything that simulates `v`. */
  lemma SpendsSame(v: Index, w: Index, tx: Tx, env: Env, env': Env, kept: set<DiskTxPos>)
    requires Simulates(w, v, env, env', kept) && AsksNoMore(env, env', tx, kept) && Spends(v, tx, env) && !tx.IsCoinBase()
    ensures Spends(w, tx, env') && ValueIn(tx, w, env') == ValueIn(tx, v, env)
  {
    hide Simulates, SameInputs, InputsConnect, InputsAvailable, Fetched;
    FetchSame(v, w, tx, env, env', kept);
    ConnectSame(tx, InputsOf(tx, v, env), InputsOf(tx, w, env'), env, env', kept);
    SameSum(tx.vin, InputsOf(tx, v, env), InputsOf(tx, w, env'), kept);
  }

  lemma MarkSame(h: nat, a: TxIndex, b: TxIndex, vin: seq<OutPoint>, p: DiskTxPos, q: DiskTxPos, env: Env, env': Env, kept: set<DiskTxPos>)
    requires SameEntry(h, a, b, env, env', kept) && p != NullPos && q != NullPos
    ensures SameEntry(h, MarkEntry(h, a, vin, p), MarkEntry(h, b, vin, q), env, env', kept)
  {
  }

  /** Applying a pool transaction to both keeps the simulation, wherever each says it is stored. */
  lemma ApplySame(v: Index, w: Index, tx: Tx, q: DiskTxPos, env: Env, env': Env, kept: set<DiskTxPos>)
    requires Simulates(w, v, env, env', kept) && !tx.IsCoinBase() && !tx.IsCoinStake()
    requires q != NullPos && q != MEMPOOL_POS && env'.disk(q) == Some(tx)
    requires tx.id in env.mempool && env.mempool[tx.id] == tx
    ensures Simulates(ApplyTx(w, tx, q), ApplyTx(v, tx, MEMPOOL_POS), env, env', kept)
  {
    hide SameEntry, MarkEntry;
    var v', w' := ApplyTx(v, tx, MEMPOOL_POS), ApplyTx(w, tx, q);
    assert SameEntry(tx.id, FreshEntry(tx, MEMPOOL_POS), FreshEntry(tx, q), env, env', kept) by {
      FreshSame(tx, q, env, env', kept);
    }
    forall h | h in v' && h != tx.id
      ensures h in w' && SameEntry(h, v'[h], w'[h], env, env', kept)
    {
      MarkSame(h, v[h], w[h], tx.vin, MEMPOOL_POS, q, env, env', kept);
    }
  }

  lemma FreshSame(tx: Tx, q: DiskTxPos, env: Env, env': Env, kept: set<DiskTxPos>)
    requires !tx.IsCoinBase() && !tx.IsCoinStake()
    requires q != NullPos && q != MEMPOOL_POS && env'.disk(q) == Some(tx)
    requires tx.id in env.mempool && env.mempool[tx.id] == tx
    ensures SameEntry(tx.id, FreshEntry(tx, MEMPOOL_POS), FreshEntry(tx, q), env, env', kept)
  {
  }

  /** The block made of `coinbase` and a template, written to the block files that `env'` reads. */
  ghost predicate Built(blk: Block, coinbase: Tx, j: Job, vtx: seq<Tx>, env': Env) {
    && blk.vtx == [coinbase] + vtx
    && coinbase.IsCoinBase() && coinbase.id !in j.db && coinbase.id !in TxIds(vtx)
    && Stored(env'.disk, blk)
    && (forall h :: h in j.db && ReadTx(h, j.db[h], j.env).Some? ==> ReadTx(h, j.db[h], env') == ReadTx(h, j.db[h], j.env))
    && env'.p2shSigOps == j.env.p2shSigOps
    && (forall k :: 0 <= k < |vtx| ==> AsksNoMore(j.env, env', vtx[k], Positions(j.db)))
  }

  /** Where the indexed transactions are stored. */
  function Positions(db: Index): (s: set<DiskTxPos>)
    ensures forall h :: h in db ==> db[h].pos in s
  {
    set h | h in db :: db[h].pos
  }

  lemma StartSame(blk: Block, coinbase: Tx, j: Job, vtx: seq<Tx>, env': Env)
    requires Built(blk, coinbase, j, vtx, env')
    ensures Simulates(Applied(j.db, blk, 1), j.db, j.env, env', Positions(j.db))
  {
    assert Applied(j.db, blk, 1) == ApplyTx(j.db, coinbase, TxPos(blk, 0));
  }

  /** What ConnectBlock has computed after the coinbase and `k` template transactions. */
  ghost predicate InStep(blk: Block, coinbase: Tx, j: Job, vtx: seq<Tx>, env': Env, k: nat)
    requires k < |blk.vtx| && k <= |vtx|
  {
    && Simulates(Applied(j.db, blk, k + 1), TrialIndex(j.db, vtx[..k]), j.env, env', Positions(j.db))
    && TxsConnect(j.db, blk, env', k + 1)
    && TotalsOf(j.db, blk, env', k + 1).sigOps == coinbase.sigOps + TrialSigOps(vtx[..k], j.env)
    && TotalsOf(j.db, blk, env', k + 1).fees == TrialFees(j.db, vtx[..k], j.env)
  }

  lemma StartInStep(blk: Block, coinbase: Tx, j: Job, vtx: seq<Tx>, env': Env)
    requires Built(blk, coinbase, j, vtx, env')
    ensures InStep(blk, coinbase, j, vtx, env', 0)
  {
    hide Simulates, ApplyTx;
    StartSame(blk, coinbase, j, vtx, env');
    assert vtx[..0] == [] && blk.vtx[0] == coinbase;
    assert TxConnects(j.db, j.db, coinbase, env');
    assert TxsConnect(j.db, blk, env', 1) by {
      assert TxsConnect(j.db, blk, env', 0);
      assert Applied(j.db, blk, 0) == j.db;
    }
    assert TotalsOf(j.db, blk, env', 0) == Totals(0, 0, 0, 0, 0);
  }

  lemma BuiltSize(blk: Block, coinbase: Tx, j: Job, vtx: seq<Tx>, env': Env)
    requires Built(blk, coinbase, j, vtx, env')
    ensures |blk.vtx| == |vtx| + 1
  {
  }

  /** The next template transaction, as the block holds it. */
  lemma NextTx(blk: Block, coinbase: Tx, j: Job, vtx: seq<Tx>, env': Env, k: nat)
    requires Built(blk, coinbase, j, vtx, env') && PoolOk(j) && Selected(j, vtx) && k < |vtx|
    ensures blk.vtx[k + 1] == vtx[k] && env'.disk(TxPos(blk, k + 1)) == Some(vtx[k])
    ensures !vtx[k].IsCoinBase() && !vtx[k].IsCoinStake() && vtx[k].id !in j.db
    ensures vtx[k].id in j.env.mempool && j.env.mempool[vtx[k].id] == vtx[k]
    ensures AsksNoMore(j.env, env', vtx[k], Positions(j.db)) && env'.p2shSigOps == j.env.p2shSigOps
  {
    hide NoneDangling, Missing, AsksNoMore;
    assert blk.vtx[k + 1] == vtx[k];
    assert vtx[k].id in TxIds(vtx);
  }

  lemma NextSpends(db: Index, vtx: seq<Tx>, env: Env, k: nat)
    requires k < |vtx| && TrialConnects(db, vtx, env)
    ensures Spends(TrialIndex(db, vtx[..k]), vtx[k], env)
    ensures TrialIndex(db, vtx[..k + 1]) == ApplyTx(TrialIndex(db, vtx[..k]), vtx[k], MEMPOOL_POS)
    ensures TrialSigOps(vtx[..k + 1], env) == TrialSigOps(vtx[..k], env) + vtx[k].sigOps + env.p2shSigOps(vtx[k])
    ensures TrialFees(db, vtx[..k + 1], env)
      == TrialFees(db, vtx[..k], env) + ValueIn(vtx[k], TrialIndex(db, vtx[..k]), env) - SumOut(vtx[k].vout)
  {
    hide Spends, ApplyTx, ValueIn;
    TrialPrefix(db, vtx, env, k + 1);
    assert vtx[..k + 1][..k] == vtx[..k];
  }

  /** What ConnectBlock adds for an ordinary transaction. */
  lemma BlockStep(db: Index, blk: Block, env: Env, k: nat)
    requires k < |blk.vtx| && !blk.vtx[k].IsCoinBase() && !blk.vtx[k].IsCoinStake() && blk.vtx[k].id !in db
    requires TxsConnect(db, blk, env, k) && Spends(Applied(db, blk, k), blk.vtx[k], env)
    ensures TxsConnect(db, blk, env, k + 1)
    ensures Applied(db, blk, k + 1) == ApplyTx(Applied(db, blk, k), blk.vtx[k], TxPos(blk, k))
    ensures var t, t', tx := TotalsOf(db, blk, env, k), TotalsOf(db, blk, env, k + 1), blk.vtx[k];
      && t'.sigOps == t.sigOps + tx.sigOps + env.p2shSigOps(tx)
      && t'.fees == t.fees + ValueIn(tx, Applied(db, blk, k), env) - SumOut(tx.vout)
  {
    hide InputsAvailable, InputsConnect, ApplyTx, ValueIn, Fetched;
  }

  lemma {:induction false} StepsTogether(blk: Block, coinbase: Tx, j: Job, vtx: seq<Tx>, env': Env, k: nat)
    requires Built(blk, coinbase, j, vtx, env') && PoolOk(j) && Selected(j, vtx)
    requires TrialConnects(j.db, vtx, j.env) && k <= |vtx|
    ensures InStep(blk, coinbase, j, vtx, env', k)
  {
    hide Simulates, Spends, ApplyTx, PoolOk, Selected, ValueIn, TrialConnects, TrialIndex, TrialSigOps, TrialFees,
      AsksNoMore, Positions, Applied, TxsConnect, TotalsOf, Built;
    BuiltSize(blk, coinbase, j, vtx, env');
    if k == 0 {
      StartInStep(blk, coinbase, j, vtx, env');
    } else {
      StepsTogether(blk, coinbase, j, vtx, env', k - 1);
      var tx, v, w := vtx[k - 1], TrialIndex(j.db, vtx[..k - 1]), Applied(j.db, blk, k);
      NextTx(blk, coinbase, j, vtx, env', k - 1);
      NextSpends(j.db, vtx, j.env, k - 1);
      SpendsSame(v, w, tx, j.env, env', Positions(j.db));
      ApplySame(v, w, tx, TxPos(blk, k), j.env, env', Positions(j.db));
      BlockStep(j.db, blk, env', k);
    }
  }

  // ---------------------------------------------------------------- maturity at the tip and above it

  /** Where a block starts in the block files. */
  datatype BlockPos = BlockPos(file: nat, block: nat)

  predicate InBlock(p: DiskTxPos, b: BlockPos) {
    p.At? && p.file == b.file && p.block == b.block
  }

  /** The position lies in one of the last `n` blocks of the chain `at`. */
  predicate Confirmed(at: seq<BlockPos>, n: nat, p: DiskTxPos) {
    exists k :: 0 <= k < |at| && |at| - 1 - k < n && InBlock(p, at[k])
  }

  /** IsConfirmedInNPrevBlocks from the last block of the chain `at`. */
  method IsConfirmedInNPrevBlocks(at: seq<BlockPos>, n: nat, p: DiskTxPos) returns (r: bool)
    ensures r <==> Confirmed(at, n, p)
  {
    var k := |at|;
    while k > 0 && |at| - k < n
      invariant 0 <= k <= |at|
      invariant forall i :: k <= i < |at| ==> !InBlock(p, at[i])
    {
      k := k - 1;
      if InBlock(p, at[k]) {
        return true;
      }
    }
    return false;
  }

  /**
   The assembler counts maturity from the tip and ConnectBlock from the new block above it, so the two rules
   differ; but outside the new block itself ConnectBlock finds nothing immature that the assembler did not.
   */
  lemma NewBlockSeesNoYounger(env: Env, env': Env, at: seq<BlockPos>, b: BlockPos, n: nat, kept: set<DiskTxPos>)
    requires forall e: TxIndex :: env.immature(e) <==> Confirmed(at, n, e.pos)
    requires forall e: TxIndex :: env'.immature(e) <==> Confirmed(at + [b], n, e.pos)
    requires forall p :: p in kept ==> !InBlock(p, b)
    ensures NoYounger(env, env', kept)
  {
    forall p | p in kept && Confirmed(at + [b], n, p)
      ensures Confirmed(at, n, p)
    {
      var k :| 0 <= k < |at + [b]| && |at + [b]| - 1 - k < n && InBlock(p, (at + [b])[k]);
      assert k < |at| && InBlock(p, at[k]);
    }
  }

  /** And strictly less: what was confirmed exactly `n` blocks up is still immature to the assembler only. */
  lemma BoundaryDiffers(at: seq<BlockPos>, b: BlockPos, n: nat, p: DiskTxPos)
    requires 0 < n <= |at| && InBlock(p, at[|at| - n]) && !InBlock(p, b)
    requires forall k :: |at| - n < k < |at| ==> !InBlock(p, at[k])
    ensures Confirmed(at, n, p) && !Confirmed(at + [b], n, p)
  {
  }

  /**
   Every template connects: the proof-of-work block made of a well-formed coinbase that claims the
   subsidy and the reported fees, and the transactions CreateNewBlock selected, is accepted by
   ConnectBlock on the index it was assembled for. The two calls of ConnectInputs use different script flags
   and count maturity from different blocks; it is enough that a signature good for the assembler is good
   for ConnectBlock, and that nothing indexed is younger to ConnectBlock (see NewBlockSeesNoYounger).
   */
  lemma AssembledBlockConnects(blk: Block, coinbase: Tx, j: Job, t: Template, env': Env, bestHeight: nat)
    requires PoolOk(j) && TemplateOk(t, j.db, j.env) && Selected(j, t.vtx)
    requires Built(blk, coinbase, j, t.vtx, env')
    requires CheckTransaction(coinbase) && coinbase.sigOps <= 100
    requires SumOut(coinbase.vout) == WorkSubsidy(bestHeight) + t.fees
    requires forall h :: h in j.env.mempool ==> CheckTransaction(j.env.mempool[h])
    ensures BlockConnects(j.db, blk, env', bestHeight, true)
  {
    hide CheckTransaction, CheckBlock, Simulates, PoolOk, Stored, AsksNoMore, TrialIndex, TrialConnects, Applied, TxsConnect, TotalsOf;
    StepsTogether(blk, coinbase, j, t.vtx, env', |t.vtx|);
    assert t.vtx[..|t.vtx|] == t.vtx;
    BuiltChecks(blk, coinbase, j, t.vtx, env');
    assert !blk.IsProofOfStake();
  }

  lemma BuiltChecks(blk: Block, coinbase: Tx, j: Job, vtx: seq<Tx>, env': Env)
    requires Built(blk, coinbase, j, vtx, env') && Selected(j, vtx)
    requires CheckTransaction(coinbase) && forall h :: h in j.env.mempool ==> CheckTransaction(j.env.mempool[h])
    ensures CheckBlock(blk) && !blk.IsProofOfStake()
  {
    hide CheckTransaction, Missing, AsksNoMore, Stored;
    assert blk.vtx[0] == coinbase;
    forall i | 1 <= i < |blk.vtx|
      ensures !blk.vtx[i].IsCoinBase() && !blk.vtx[i].IsCoinStake() && CheckTransaction(blk.vtx[i])
      ensures blk.vtx[i].id != coinbase.id
    {
      assert blk.vtx[i] == vtx[i - 1] && vtx[i - 1].id in TxIds(vtx);
    }
    forall a, b | 1 <= a < b < |blk.vtx|
      ensures blk.vtx[a].id != blk.vtx[b].id
    {
      assert blk.vtx[a] == vtx[a - 1] && blk.vtx[b] == vtx[b - 1];
    }
  }
}
