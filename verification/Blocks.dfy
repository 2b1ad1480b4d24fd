/**
 Connecting and disconnecting whole blocks against the spent-output index:
 CBlock::CheckBlock (its context-free part), ConnectBlock, DisconnectBlock and the reward tiers.
 */
module Blocks {
  import opened Wrappers
  import opened Sequences
  import opened Ledger

  const MAX_BLOCK_SIGOPS := 400_000

  /** `file` and `pos` say where the block starts in the block files. */
  datatype Block = Block(id: nat, prev: nat, vtx: seq<Tx>, file: nat, pos: nat) {
    predicate IsProofOfStake() {
      |vtx| > 1 && vtx[1].IsCoinStake()
    }
  }

  function CompactSize(n: nat): nat {
    if n < 253 then 1 else if n <= 0xFFFF then 3 else if n <= 0xFFFF_FFFF then 5 else 9
  }

  function TotalSize(txs: seq<Tx>): nat {
    if txs == [] then 0 else TotalSize(txs[..|txs| - 1]) + txs[|txs| - 1].size
  }

  /** Position of transaction `i`: behind the 80-byte header, the count and the earlier transactions. */
  function TxPos(blk: Block, i: nat): (p: DiskTxPos)
    requires i <= |blk.vtx|
    ensures p != NullPos && p != MEMPOOL_POS
  {
    At(blk.file, blk.pos, blk.pos + 80 + CompactSize(|blk.vtx|) + TotalSize(blk.vtx[..i]))
  }

  /** Reading the block files at a transaction's position yields that transaction. */
  ghost predicate Stored(disk: DiskTxPos -> Option<Tx>, blk: Block) {
    forall i :: 0 <= i < |blk.vtx| ==> disk(TxPos(blk, i)) == Some(blk.vtx[i])
  }

  // ---------------------------------------------------------------- context-free checks

  predicate CheckTransaction(tx: Tx) {
    && tx.vin != [] && tx.vout != []
    && (forall k :: 0 <= k < |tx.vout| ==> !(tx.vout[k].IsEmpty() && !tx.IsCoinBase() && !tx.IsCoinStake()))
    && OutputsInRange(tx.vout)
    && NoDuplicates(tx.vin)
    && (!tx.IsCoinBase() ==> forall i :: 0 <= i < |tx.vin| ==> !tx.vin[i].IsNull())
  }

  predicate UniqueIds(vtx: seq<Tx>) {
    forall i, j :: 0 <= i < j < |vtx| ==> vtx[i].id != vtx[j].id
  }

  predicate CheckBlock(blk: Block) {
    && blk.vtx != [] && blk.vtx[0].IsCoinBase()
    && (forall i :: 1 <= i < |blk.vtx| ==> !blk.vtx[i].IsCoinBase())
    && (blk.IsProofOfStake() ==>
          && |blk.vtx[0].vout| == 1 && blk.vtx[0].vout[0].IsEmpty()
          && forall i :: 2 <= i < |blk.vtx| ==> !blk.vtx[i].IsCoinStake())
    && (forall i :: 0 <= i < |blk.vtx| ==> CheckTransaction(blk.vtx[i]))
    && UniqueIds(blk.vtx)
  }

  // ---------------------------------------------------------------- rewards

  /** Proof-of-work subsidy at best height `h`, without fees. */
  function WorkSubsidy(h: nat): int {
    if h == 0 then 8250 * COIN
    else if h < 5000 then 80 * COIN
    else if h < 10000 then 70 * COIN
    else if h < 15000 then 60 * COIN
    else if h < 20000 then 50 * COIN
    else if h < 25000 then 40 * COIN
    else if h < 30000 then 30 * COIN
    else if h < 35000 then 20 * COIN
    else if h < 40000 then 10 * COIN
    else 5 * COIN
  }

  /** Proof-of-stake subsidy at best height `h`, without fees. */
  function StakeSubsidy(h: nat): int {
    if h < 1000 then COIN / 100
    else if h < 10000 then COIN / 10
    else if h < 20000 then COIN
    else if h < 50000 then 2 * COIN
    else if h < 85000 then COIN
    else COIN / 2
  }

  function Subsidy(blk: Block, bestHeight: nat): int {
    if blk.IsProofOfStake() then StakeSubsidy(bestHeight) else WorkSubsidy(bestHeight)
  }

  /** Proof of work pays 80 coins at first and 10 less every 5000 blocks, until 5 remain; the premine is 8250. */
  lemma WorkTiers(h: nat)
    ensures h == 0 ==> WorkSubsidy(h) == 8250 * COIN
    ensures 0 < h < 40000 ==> WorkSubsidy(h) == (80 - 10 * (h / 5000)) * COIN
    ensures h >= 40000 ==> WorkSubsidy(h) == 5 * COIN
  {
  }

  /** Proof of stake pays a cent, a tenth, one coin, two coins, one coin and then half a coin. */
  lemma StakeTiers(h: nat)
    ensures 100 * StakeSubsidy(h) == COIN * (if h < 1000 then 1 else if h < 10000 then 10 else if h < 20000 then 100
                                             else if h < 50000 then 200 else if h < 85000 then 100 else 50)
  {
  }

  // ---------------------------------------------------------------- what connecting means

  /** The rule of BIP 30: an indexed transaction with an unspent output may not be overwritten. */
  predicate Overwrites(db: Index, tx: Tx) {
    tx.id in db && NullPos in db[tx.id].spent
  }

  /** The index after the first `k` transactions of `blk`. */
  function Applied(idx: Index, blk: Block, k: nat): Index
    requires k <= |blk.vtx|
  {
    if k == 0 then idx else ApplyTx(Applied(idx, blk, k - 1), blk.vtx[k - 1], TxPos(blk, k - 1))
  }

  /** The previous transactions of `tx` as the index `v` shows them. */
  function InputsOf(tx: Tx, v: Index, env: Env): (m: map<nat, Prev>)
    requires InputsAvailable(tx, v, map[], env, true)
    ensures InputsKnown(tx.vin, m)
    ensures Fetched(tx, m, v, map[], env, true)
  {
    map h | h in PrevHashes(tx.vin) :: Locate(h, v, map[], env, true).value
  }

  function ValueIn(tx: Tx, v: Index, env: Env): int {
    if tx.IsCoinBase() || !InputsAvailable(tx, v, map[], env, true) then 0
    else SumIn(tx.vin, InputsOf(tx, v, env))
  }

  /** `tx` connects on the view `v`; overwriting is judged by the index at the start of the block. */
  predicate TxConnects(db: Index, v: Index, tx: Tx, env: Env) {
    && !Overwrites(db, tx)
    && (!tx.IsCoinBase() ==>
          InputsAvailable(tx, v, map[], env, true) && InputsConnect(tx, InputsOf(tx, v, env), env))
  }

  /** The first `k` transactions of `blk` connect one after the other. */
  predicate TxsConnect(idx: Index, blk: Block, env: Env, k: nat)
    requires k <= |blk.vtx|
  {
    k == 0 ||
    (TxsConnect(idx, blk, env, k - 1) && TxConnects(idx, Applied(idx, blk, k - 1), blk.vtx[k - 1], env))
  }

  /** The running totals of ConnectBlock. */
  datatype Totals = Totals(sigOps: nat, valueIn: int, valueOut: int, fees: int, stakeReward: int)

  function AddTx(t: Totals, tx: Tx, valueIn: int, p2sh: nat): Totals {
    var valueOut := SumOut(tx.vout);
    if tx.IsCoinBase() then t.(sigOps := t.sigOps + tx.sigOps, valueOut := t.valueOut + valueOut)
    else t.(sigOps := t.sigOps + tx.sigOps + p2sh,
            valueIn := t.valueIn + valueIn,
            valueOut := t.valueOut + valueOut,
            fees := if tx.IsCoinStake() then t.fees else t.fees + valueIn - valueOut,
            stakeReward := if tx.IsCoinStake() then valueOut - valueIn else t.stakeReward)
  }

  function TotalsOf(idx: Index, blk: Block, env: Env, k: nat): Totals
    requires k <= |blk.vtx|
  {
    if k == 0 then Totals(0, 0, 0, 0, 0)
    else
      var tx := blk.vtx[k - 1];
      AddTx(TotalsOf(idx, blk, env, k - 1), tx, ValueIn(tx, Applied(idx, blk, k - 1), env), env.p2shSigOps(tx))
  }

  predicate RewardOk(blk: Block, t: Totals, bestHeight: nat)
    requires blk.vtx != []
  {
    if blk.IsProofOfStake() then t.stakeReward <= StakeSubsidy(bestHeight) + t.fees
    else SumOut(blk.vtx[0].vout) <= WorkSubsidy(bestHeight) + t.fees
  }

  /** Exactly the blocks ConnectBlock accepts; `other` stands for the checks that are not modelled. */
  predicate BlockConnects(idx: Index, blk: Block, env: Env, bestHeight: nat, other: bool) {
    && CheckBlock(blk) && other
    && TxsConnect(idx, blk, env, |blk.vtx|)
    && TotalsOf(idx, blk, env, |blk.vtx|).sigOps <= MAX_BLOCK_SIGOPS
    && RewardOk(blk, TotalsOf(idx, blk, env, |blk.vtx|), bestHeight)
  }

  function SupplyChange(idx: Index, blk: Block, env: Env): int {
    var t := TotalsOf(idx, blk, env, |blk.vtx|);
    t.valueOut - t.valueIn
  }

  // ---------------------------------------------------------------- ConnectBlock

  /** Looking through proposed changes is looking at the view they make. */
  lemma LocateInView(tx: Tx, db: Index, pool: Index, env: Env)
    ensures InputsAvailable(tx, db, pool, env, true) == InputsAvailable(tx, View(db, pool), map[], env, true)
    ensures forall m :: Fetched(tx, m, db, pool, env, true) == Fetched(tx, m, View(db, pool), map[], env, true)
  {
    forall h
      ensures Locate(h, db, pool, env, true) == Locate(h, View(db, pool), map[], env, true)
    {
    }
  }

  lemma FetchedIsInputsOf(tx: Tx, m: map<nat, Prev>, v: Index, env: Env)
    requires InputsAvailable(tx, v, map[], env, true)
    requires Fetched(tx, m, v, map[], env, true)
    ensures m == InputsOf(tx, v, env)
  {
  }

  /** The body of ConnectBlock's loop for one transaction. */
  method ConnectTx(tx: Tx, db: Index, queued: Index, pos: DiskTxPos, env: Env)
    returns (ok: bool, queued': Index, valueIn: int)
    requires pos != NullPos && OutputsInRange(tx.vout)
    ensures ok <==> TxConnects(db, View(db, queued), tx, env)
    ensures ok ==> View(db, queued') == ApplyTx(View(db, queued), tx, pos)
    ensures ok ==> CanApply(View(db, queued), tx)
    ensures ok ==> valueIn == ValueIn(tx, View(db, queued), env)
  {
    queued', valueIn := queued, 0;
    if Overwrites(db, tx) {
      return false, queued', valueIn;
    }
    if tx.IsCoinBase() {
      queued' := queued[tx.id := FreshEntry(tx, pos)];
      ViewUpdate(db, queued, tx.id, FreshEntry(tx, pos));
      return true, queued', valueIn;
    }
    var inputs, fInvalid;
    ok, inputs, fInvalid := FetchInputs(tx, db, queued, env, true, false);
    LocateInView(tx, db, queued, env);
    if !ok {
      return false, queued', valueIn;
    }
    FetchedIsInputsOf(tx, inputs, View(db, queued), env);
    valueIn := GetValueIn(tx, inputs);
    ok, queued' := ConnectInputs(tx, inputs, queued, pos, env, true, false);
    if ok {
      ConnectActsOnView(tx, inputs, db, queued, queued', pos, env);
      queued' := queued'[tx.id := FreshEntry(tx, pos)];
    }
  }

  /** CTransaction::GetValueIn. */
  method GetValueIn(tx: Tx, inputs: map<nat, Prev>) returns (v: int)
    requires !tx.IsCoinBase() ==> InputsKnown(tx.vin, inputs)
    ensures tx.IsCoinBase() ==> v == 0
    ensures !tx.IsCoinBase() ==> v == SumIn(tx.vin, inputs)
  {
    v := 0;
    if tx.IsCoinBase() {
      return;
    }
    for i := 0 to |tx.vin|
      invariant v == SumIn(tx.vin[..i], inputs)
    {
      assert tx.vin[..i + 1][..i] == tx.vin[..i];
      v := v + InputValue(tx.vin[i], inputs);
    }
    assert tx.vin[..|tx.vin|] == tx.vin;
  }

  /** Totals only grow in signature operations, so checking as they accumulate checks the sum. */
  lemma {:induction false} SigOpsGrow(idx: Index, blk: Block, env: Env, i: nat, k: nat)
    requires i <= k <= |blk.vtx|
    ensures TotalsOf(idx, blk, env, i).sigOps <= TotalsOf(idx, blk, env, k).sigOps
    decreases k
  {
    if i < k {
      SigOpsGrow(idx, blk, env, i, k - 1);
    }
  }

  /** The loop of ConnectBlock: queue the changes of every transaction and keep the totals. */
  method ConnectTxs(blk: Block, idx: Index, env: Env) returns (ok: bool, queued: Index, t: Totals)
    requires CheckBlock(blk)
    ensures ok <==> (TxsConnect(idx, blk, env, |blk.vtx|) &&
                     TotalsOf(idx, blk, env, |blk.vtx|).sigOps <= MAX_BLOCK_SIGOPS)
    ensures ok ==> View(idx, queued) == Applied(idx, blk, |blk.vtx|)
    ensures ok ==> t == TotalsOf(idx, blk, env, |blk.vtx|)
  {
    hide TxConnects, ValueIn, ApplyTx;
    queued, t := map[], Totals(0, 0, 0, 0, 0);
    assert View(idx, queued) == idx;
    for k := 0 to |blk.vtx|
      invariant TxsConnect(idx, blk, env, k)
      invariant View(idx, queued) == Applied(idx, blk, k)
      invariant t == TotalsOf(idx, blk, env, k)
      invariant t.sigOps <= MAX_BLOCK_SIGOPS
    {
      var tx := blk.vtx[k];
      assert CheckTransaction(tx);
      var txOk, queued', valueIn := ConnectTx(tx, idx, queued, TxPos(blk, k), env);
      if !txOk {
        if TxsConnect(idx, blk, env, |blk.vtx|) {
          PrefixConnects(idx, blk, env, k + 1, |blk.vtx|);
        }
        return false, queued, t;
      }
      queued, t := queued', AddTx(t, tx, valueIn, env.p2shSigOps(tx));
      if t.sigOps > MAX_BLOCK_SIGOPS {
        SigOpsGrow(idx, blk, env, k + 1, |blk.vtx|);
        return false, queued, t;
      }
    }
    return true, queued, t;
  }

  /** CBlock::ConnectBlock on the index that the open database transaction shows. */
  method ConnectBlock(blk: Block, idx: Index, env: Env, bestHeight: nat, other: bool, prevSupply: int)
    returns (ok: bool, idx': Index, supply: int, mint: int)
    ensures ok <==> BlockConnects(idx, blk, env, bestHeight, other)
    ensures ok ==> idx' == Applied(idx, blk, |blk.vtx|)
    ensures ok ==> supply == prevSupply + SupplyChange(idx, blk, env)
    ensures ok ==> mint == SupplyChange(idx, blk, env) + TotalsOf(idx, blk, env, |blk.vtx|).fees
    ensures !ok ==> idx' == idx
  {
    hide TxsConnect, TotalsOf, Applied;
    idx', supply, mint := idx, 0, 0;
    if !CheckBlock(blk) || !other {
      return false, idx', supply, mint;
    }
    var queued, t;
    ok, queued, t := ConnectTxs(blk, idx, env);
    if !ok {
      return false, idx', supply, mint;
    }
    var coinbaseOut := GetValueOut(blk.vtx[0]);
    assert CheckTransaction(blk.vtx[0]);
    if !blk.IsProofOfStake() && coinbaseOut.value > WorkSubsidy(bestHeight) + t.fees {
      return false, idx', supply, mint;
    }
    if blk.IsProofOfStake() && t.stakeReward > StakeSubsidy(bestHeight) + t.fees {
      return false, idx', supply, mint;
    }
    mint := t.valueOut - t.valueIn + t.fees;
    supply := prevSupply + t.valueOut - t.valueIn;
    idx' := idx + queued;
    return true, idx', supply, mint;
  }

  lemma TxConnectsApplies(db: Index, v: Index, tx: Tx, env: Env)
    requires TxConnects(db, v, tx, env)
    ensures CanApply(v, tx)
  {
    if !tx.IsCoinBase() {
      ConnectedIsSpendable(tx, InputsOf(tx, v, env), v, map[], env);
      assert View(v, map[]) == v;
    }
  }

  /** The transaction that an index entry points at, as the block files or the memory pool hold it. */
  ghost predicate PointsAt(env: Env, h: nat, e: TxIndex, p: Tx) {
    if e.pos == MEMPOOL_POS then h in env.mempool && env.mempool[h] == p else env.disk(e.pos) == Some(p)
  }

  /**
   Input `i` spends an existing, unspent, non-empty output of `p`, which is no younger and mature; it is named once and
   spent with a valid signature.
   */
  ghost predicate SpendsFrom(v: Index, tx: Tx, env: Env, i: nat, p: Tx)
    requires i < |tx.vin|
  {
    var o := tx.vin[i];
    && o.hash in v && o.n < |v[o.hash].spent| && v[o.hash].spent[o.n] == NullPos
    && (forall k :: 0 <= k < i ==> tx.vin[k] != o)
    && PointsAt(env, o.hash, v[o.hash], p) && o.n < |p.vout| && p.time <= tx.time
    && (p.IsCoinBase() || p.IsCoinStake() ==> !env.immature(v[o.hash]))
    && !(p.vout[o.n].value == 0 && p.vout[o.n].emptyScript) && 0 <= p.vout[o.n].value <= MAX_MONEY
    && env.sigOk(p, tx, i)
  }

  /** The value of the outputs that `vin` names in the transactions `ps`. */
  function Worth(vin: seq<OutPoint>, ps: seq<Tx>): int
    requires |ps| == |vin| && forall i :: 0 <= i < |vin| ==> vin[i].n < |ps[i].vout|
  {
    if vin == [] then 0 else Worth(vin[1..], ps[1..]) + ps[0].vout[vin[0].n].value
  }

  /** The transactions `ps` pay for `tx`, one for each input: no more money than there is, and no less than goes out. */
  ghost predicate PaidBy(v: Index, tx: Tx, env: Env, ps: seq<Tx>) {
    && |ps| == |tx.vin| && (forall i :: 0 <= i < |ps| ==> SpendsFrom(v, tx, env, i, ps[i]))
    && Worth(tx.vin, ps) <= MAX_MONEY
    && (!tx.IsCoinStake() ==> 0 <= Worth(tx.vin, ps) - SumOut(tx.vout) <= MAX_MONEY)
  }

  /** `ps` are the transactions that the fetched inputs hold. */
  ghost predicate Holds(vin: seq<OutPoint>, m: map<nat, Prev>, ps: seq<Tx>) {
    && |ps| == |vin| && InputsKnown(vin, m)
    && forall i :: 0 <= i < |vin| ==> ps[i] == m[vin[i].hash].tx
  }

  lemma {:induction false} WorthSplit(vin: seq<OutPoint>, ps: seq<Tx>)
    requires vin != [] && |ps| == |vin| && forall i :: 0 <= i < |vin| ==> vin[i].n < |ps[i].vout|
    ensures var n := |vin| - 1; Worth(vin, ps) == Worth(vin[..n], ps[..n]) + ps[n].vout[vin[n].n].value
  {
    var n := |vin| - 1;
    if n > 0 {
      WorthSplit(vin[1..], ps[1..]);
      assert vin[1..][..n - 1] == vin[..n][1..] && ps[1..][..n - 1] == ps[..n][1..];
    }
  }

  lemma {:induction false} WorthIsSumIn(vin: seq<OutPoint>, m: map<nat, Prev>, ps: seq<Tx>)
    requires Holds(vin, m, ps)
    ensures Worth(vin, ps) == SumIn(vin, m)
  {
    if vin != [] {
      var n := |vin| - 1;
      WorthSplit(vin, ps);
      WorthIsSumIn(vin[..n], m, ps[..n]);
    }
  }

  lemma {:induction false} WorthGrows(vin: seq<OutPoint>, ps: seq<Tx>, k: nat)
    requires |ps| == |vin| && forall i :: 0 <= i < |vin| ==> vin[i].n < |ps[i].vout| && 0 <= ps[i].vout[vin[i].n].value
    requires k <= |vin|
    ensures 0 <= Worth(vin[..k], ps[..k]) <= Worth(vin, ps)
  {
    if vin != [] {
      var n := |vin| - 1;
      WorthSplit(vin, ps);
      if k <= n {
        WorthGrows(vin[..n], ps[..n], k);
        assert vin[..n][..k] == vin[..k] && ps[..n][..k] == ps[..k];
      } else {
        WorthGrows(vin[..n], ps[..n], n);
        assert vin[..k] == vin && ps[..k] == ps && vin[..n][..n] == vin[..n] && ps[..n][..n] == ps[..n];
      }
    }
  }

  /** The first direction of TxConnectsIff. */
  lemma ConnectedIsPaid(v: Index, tx: Tx, env: Env) returns (ps: seq<Tx>)
    requires InputsAvailable(tx, v, map[], env, true) && InputsConnect(tx, InputsOf(tx, v, env), env)
    ensures PaidBy(v, tx, env, ps)
  {
    hide SumIn, SumOut;
    var m := InputsOf(tx, v, env);
    ps := seq(|tx.vin|, i requires 0 <= i < |tx.vin| => m[tx.vin[i].hash].tx);
    forall i | 0 <= i < |ps|
      ensures SpendsFrom(v, tx, env, i, ps[i])
    {
      InputSpends(v, tx, env, m, i);
    }
    WorthIsSumIn(tx.vin, m, ps);
    if tx.vin != [] {
      assert InputOk(tx, |tx.vin| - 1, m, env);
      assert tx.vin[..|tx.vin| - 1 + 1] == tx.vin;
    }
  }

  lemma InputSpends(v: Index, tx: Tx, env: Env, m: map<nat, Prev>, i: nat)
    requires i < |tx.vin| && Fetched(tx, m, v, map[], env, true) && InputsKnown(tx.vin, m)
    requires InputOk(tx, i, m, env) && UnspentAndSigned(tx, i, m, env)
    ensures SpendsFrom(v, tx, env, i, m[tx.vin[i].hash].tx)
  {
    hide SumIn;
    var o := tx.vin[i];
    assert Locate(o.hash, v, map[], env, true) == Some(m[o.hash]);
    assert forall k :: 0 <= k < i ==> tx.vin[k] in tx.vin[..i];
  }

  lemma PaidIsConnected(v: Index, tx: Tx, env: Env, ps: seq<Tx>)
    requires PaidBy(v, tx, env, ps)
    ensures InputsAvailable(tx, v, map[], env, true) && InputsConnect(tx, InputsOf(tx, v, env), env)
  {
    hide SumIn, Worth, SumOut;
    forall i | 0 <= i < |tx.vin|
      ensures tx.vin[i].hash in v && InputInRange(tx.vin[i], Prev(v[tx.vin[i].hash], ps[i]))
      ensures Locate(tx.vin[i].hash, v, map[], env, true) == Some(Prev(v[tx.vin[i].hash], ps[i]))
    {
      assert SpendsFrom(v, tx, env, i, ps[i]);
    }
    var m := InputsOf(tx, v, env);
    forall i | 0 <= i < |tx.vin|
      ensures ps[i] == m[tx.vin[i].hash].tx
    {
    }
    assert Holds(tx.vin, m, ps);
    WorthIsSumIn(tx.vin, m, ps);
    forall i | 0 <= i < |tx.vin|
      ensures InputOk(tx, i, m, env) && UnspentAndSigned(tx, i, m, env)
    {
      InputIsFine(v, tx, env, m, ps, i);
    }
  }

  lemma InputIsFine(v: Index, tx: Tx, env: Env, m: map<nat, Prev>, ps: seq<Tx>, i: nat)
    requires PaidBy(v, tx, env, ps) && Holds(tx.vin, m, ps) && i < |tx.vin| && m[tx.vin[i].hash].index == v[tx.vin[i].hash]
    ensures InputOk(tx, i, m, env) && UnspentAndSigned(tx, i, m, env)
  {
    hide SumIn, Worth, SumOut;
    assert SpendsFrom(v, tx, env, i, ps[i]);
    forall k | 0 <= k < |tx.vin|
      ensures tx.vin[k].n < |ps[k].vout| && 0 <= ps[k].vout[tx.vin[k].n].value
    {
      assert SpendsFrom(v, tx, env, k, ps[k]);
    }
    WorthGrows(tx.vin, ps, i + 1);
    WorthIsSumIn(tx.vin[..i + 1], m, ps[..i + 1]);
  }

  /**
   What connecting a transaction demands, in terms of the outputs it spends: it overwrites no entry with an unspent output,
   and every input is paid for by an output that exists, is unspent, mature and signed for.
   */
  lemma TxConnectsIff(db: Index, v: Index, tx: Tx, env: Env)
    requires !tx.IsCoinBase()
    ensures TxConnects(db, v, tx, env) <==>
            && (tx.id in db ==> forall n :: 0 <= n < |db[tx.id].spent| ==> db[tx.id].spent[n] != NullPos)
            && exists ps :: PaidBy(v, tx, env, ps)
  {
    hide InputsAvailable, InputsConnect, PaidBy;
    if InputsAvailable(tx, v, map[], env, true) && InputsConnect(tx, InputsOf(tx, v, env), env) {
      var ps := ConnectedIsPaid(v, tx, env);
    }
    if ps :| PaidBy(v, tx, env, ps) {
      PaidIsConnected(v, tx, env, ps);
    }
  }

  lemma {:induction false} PrefixConnects(idx: Index, blk: Block, env: Env, i: nat, k: nat)
    requires i <= k <= |blk.vtx| && TxsConnect(idx, blk, env, k)
    ensures TxsConnect(idx, blk, env, i)
    decreases k
  {
    if i < k {
      PrefixConnects(idx, blk, env, i, k - 1);
    }
  }

  /** Connected transactions were applicable one after the other. */
  lemma ConnectedApplies(idx: Index, blk: Block, env: Env, k: nat)
    requires k < |blk.vtx| && TxsConnect(idx, blk, env, |blk.vtx|)
    ensures CanApply(Applied(idx, blk, k), blk.vtx[k])
  {
    hide TxConnects;
    PrefixConnects(idx, blk, env, k + 1, |blk.vtx|);
    TxConnectsApplies(idx, Applied(idx, blk, k), blk.vtx[k], env);
  }

  // ---------------------------------------------------------------- DisconnectBlock

  /** The index after the transactions `vtx` are disconnected, last first. */
  function Undone(idx: Index, vtx: seq<Tx>): Index {
    if vtx == [] then idx else Undone(UndoTx(idx, vtx[|vtx| - 1]), vtx[..|vtx| - 1])
  }

  predicate CanUndoAll(idx: Index, vtx: seq<Tx>) {
    vtx == [] ||
    (CanUndo(idx, vtx[|vtx| - 1]) && CanUndoAll(UndoTx(idx, vtx[|vtx| - 1]), vtx[..|vtx| - 1]))
  }

  /** CBlock::DisconnectBlock. */
  method DisconnectBlock(blk: Block, idx: Index) returns (ok: bool, idx': Index)
    ensures ok <==> CanUndoAll(idx, blk.vtx)
    ensures ok ==> idx' == Undone(idx, blk.vtx)
  {
    idx' := idx;
    var i := |blk.vtx|;
    assert blk.vtx[..i] == blk.vtx;
    while i > 0
      invariant 0 <= i <= |blk.vtx|
      invariant CanUndoAll(idx, blk.vtx) <==> CanUndoAll(idx', blk.vtx[..i])
      invariant Undone(idx, blk.vtx) == Undone(idx', blk.vtx[..i])
    {
      i := i - 1;
      assert blk.vtx[..i + 1][..i] == blk.vtx[..i];
      var txOk, next := DisconnectInputs(blk.vtx[i], idx');
      if !txOk {
        return false, idx';
      }
      idx' := next;
    }
    return true, idx';
  }

  predicate FreshIds(idx: Index, vtx: seq<Tx>) {
    forall i :: 0 <= i < |vtx| ==> vtx[i].id !in idx
  }

  /** Before transaction `k` of a fresh block, the index holds the old ids and the earlier ones. */
  lemma AppliedKeys(idx: Index, blk: Block, k: nat)
    requires k <= |blk.vtx|
    ensures Applied(idx, blk, k).Keys == idx.Keys + set i | 0 <= i < k :: blk.vtx[i].id
  {
    if k > 0 {
      AppliedKeys(idx, blk, k - 1);
    }
  }

  lemma {:induction false} UndoneApplied(idx: Index, blk: Block, k: nat)
    requires k <= |blk.vtx| && UniqueIds(blk.vtx) && FreshIds(idx, blk.vtx)
    requires forall i :: 0 <= i < k ==> CanApply(Applied(idx, blk, i), blk.vtx[i])
    ensures CanUndoAll(Applied(idx, blk, k), blk.vtx[..k])
    ensures Undone(Applied(idx, blk, k), blk.vtx[..k]) == idx
  {
    hide ApplyTx, UndoTx, CanApply, CanUndo, UniqueIds, FreshIds, Undone, CanUndoAll, TxPos;
    if k == 0 {
      NothingUndone(idx, blk.vtx[..0]);
    } else {
      var v, tx := Applied(idx, blk, k - 1), blk.vtx[k - 1];
      UndoneApplied(idx, blk, k - 1);
      StillNew(idx, blk, k - 1);
      UndoFreshTx(v, tx, TxPos(blk, k - 1));
      UndoneFromLast(Applied(idx, blk, k), blk.vtx, k);
    }
  }

  lemma NothingUndone(idx: Index, vtx: seq<Tx>)
    requires vtx == []
    ensures CanUndoAll(idx, vtx) && Undone(idx, vtx) == idx
  {
  }

  lemma UndoneFromLast(idx: Index, vtx: seq<Tx>, k: nat)
    requires 0 < k <= |vtx|
    ensures Undone(idx, vtx[..k]) == Undone(UndoTx(idx, vtx[k - 1]), vtx[..k - 1])
    ensures CanUndoAll(idx, vtx[..k]) <==> CanUndo(idx, vtx[k - 1]) && CanUndoAll(UndoTx(idx, vtx[k - 1]), vtx[..k - 1])
  {
    hide UndoTx, CanUndo;
    assert vtx[..k][..k - 1] == vtx[..k - 1];
  }

  /** The id of transaction `k` of a fresh block is still new when its turn comes. */
  lemma StillNew(idx: Index, blk: Block, k: nat)
    requires k < |blk.vtx| && UniqueIds(blk.vtx) && FreshIds(idx, blk.vtx)
    ensures blk.vtx[k].id !in Applied(idx, blk, k)
  {
    hide Applied;
    AppliedKeys(idx, blk, k);
  }

  /** Disconnecting never adds an entry and erases the entry of every transaction it disconnects. */
  lemma UndoneKeys(idx: Index, vtx: seq<Tx>)
    ensures Undone(idx, vtx).Keys == idx.Keys - set i | 0 <= i < |vtx| :: vtx[i].id
  {
    if vtx != [] {
      var init, last := vtx[..|vtx| - 1], vtx[|vtx| - 1];
      UndoneKeys(UndoTx(idx, last), init);
      assert (set i | 0 <= i < |vtx| :: vtx[i].id) == (set i | 0 <= i < |init| :: init[i].id) + {last.id};
    }
  }

  /**
   For every block that connects, disconnecting it restores the index exactly if and only if none of
   its transaction ids was in the index before. Chains of spends inside the block and several inputs
   from one previous transaction are covered.
   */
  lemma DisconnectRestoresIffFresh(idx: Index, blk: Block, env: Env)
    requires UniqueIds(blk.vtx) && TxsConnect(idx, blk, env, |blk.vtx|)
    ensures var after := Applied(idx, blk, |blk.vtx|);
      CanUndoAll(after, blk.vtx) && Undone(after, blk.vtx) == idx <==> FreshIds(idx, blk.vtx)
  {
    var after := Applied(idx, blk, |blk.vtx|);
    assert blk.vtx[..|blk.vtx|] == blk.vtx;
    if FreshIds(idx, blk.vtx) {
      forall i | 0 <= i < |blk.vtx|
        ensures CanApply(Applied(idx, blk, i), blk.vtx[i])
      {
        ConnectedApplies(idx, blk, env, i);
      }
      UndoneApplied(idx, blk, |blk.vtx|);
    } else {
      UndoneKeys(after, blk.vtx);
    }
  }

  /** A block whose coinbase takes the id of a completely spent transaction. */
  function ReusingBlock(): Block {
    Block(100, 99, [Tx(5, 0, [OutPoint(0, 0xFFFF_FFFF)], [TxOut(0, false)], 100, 0)], 0, 0)
  }

  function SpentIndex(): Index {
    map[5 := TxIndex(At(9, 9, 9), [At(8, 8, 8)])]
  }

  /** The overwrite rule lets such a block connect, and disconnecting it does not restore the index. */
  lemma SpentIdIsReused(env: Env)
    ensures BlockConnects(SpentIndex(), ReusingBlock(), env, 1, true) && !FreshIds(SpentIndex(), ReusingBlock().vtx)
    ensures var after := Applied(SpentIndex(), ReusingBlock(), 1);
      CanUndoAll(after, ReusingBlock().vtx) && Undone(after, ReusingBlock().vtx) == map[] != SpentIndex()
  {
    var idx, blk := SpentIndex(), ReusingBlock();
    var tx, outs := blk.vtx[0], blk.vtx[0].vout;
    assert outs[..1] == outs && outs[..0] == [];
    assert SumOut(outs) == 0;
    assert OutputInRange(outs, 0);
    assert Applied(idx, blk, 0) == idx;
    assert TxConnects(idx, idx, tx, env);
    assert TxsConnect(idx, blk, env, 0);
    assert TotalsOf(idx, blk, env, 0) == Totals(0, 0, 0, 0, 0);
    var after := Applied(idx, blk, 1);
    assert after == ApplyTx(idx, tx, TxPos(blk, 0));
    assert UndoTx(after, tx) == map[];
    assert blk.vtx[..0] == [];
    assert 5 in idx;
  }
}
