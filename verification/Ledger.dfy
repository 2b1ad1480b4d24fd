/**
 Transactions, the spent-output index (`CTxIndex.vSpent`) and the three operations that
 read and write it for one transaction: FetchInputs, ConnectInputs and DisconnectInputs.

 A transaction hash is an injective id. Everything outside the index (block files, the
 memory pool, maturity, signatures) is reached through an `Env` of arbitrary functions.
 */
module Ledger {
  import opened Wrappers
  import opened Sequences

  const COIN := 100_000_000
  const MAX_MONEY := 10_000_000 * COIN

  predicate MoneyRange(v: int) {
    0 <= v <= MAX_MONEY
  }

  datatype OutPoint = OutPoint(hash: nat, n: nat) {
    predicate IsNull() {
      hash == 0 && n == 0xFFFF_FFFF
    }
  }

  datatype TxOut = TxOut(value: int, emptyScript: bool) {
    predicate IsEmpty() {
      value == 0 && emptyScript
    }
  }

  /** `size` is the serialized size and `sigOps` the legacy signature-operation count. */
  datatype Tx = Tx(id: nat, time: nat, vin: seq<OutPoint>, vout: seq<TxOut>, size: nat, sigOps: nat) {
    predicate IsCoinBase() {
      |vin| == 1 && vin[0].IsNull() && |vout| >= 1
    }

    predicate IsCoinStake() {
      |vin| > 0 && !vin[0].IsNull() && |vout| >= 2 && vout[0].IsEmpty()
    }
  }

  /** Where a transaction lives in the block files; `NullPos` marks an unspent output. */
  datatype DiskTxPos = NullPos | At(file: nat, block: nat, tx: nat)

  /** The position that stands for "look in the memory pool". */
  const MEMPOOL_POS := At(1, 1, 1)

  datatype TxIndex = TxIndex(pos: DiskTxPos, spent: seq<DiskTxPos>)

  type Index = map<nat, TxIndex>

  /** A previous transaction as fetched: its index entry and its contents. */
  datatype Prev = Prev(index: TxIndex, tx: Tx)

  datatype Env = Env(
    disk: DiskTxPos -> Option<Tx>,
    mempool: map<nat, Tx>,
    immature: TxIndex -> bool,
    sigOk: (Tx, Tx, nat) -> bool,
    p2shSigOps: Tx -> nat)

  function Nulls(n: nat): (s: seq<DiskTxPos>)
    ensures |s| == n && forall i :: 0 <= i < n ==> s[i] == NullPos
  {
    seq(n, _ => NullPos)
  }

  function FreshEntry(tx: Tx, pos: DiskTxPos): TxIndex {
    TxIndex(pos, Nulls(|tx.vout|))
  }

  // ---------------------------------------------------------------- values

  function SumOut(outs: seq<TxOut>): int {
    if outs == [] then 0 else SumOut(outs[..|outs| - 1]) + outs[|outs| - 1].value
  }

  /** No single output and no running total leaves the money range. */
  predicate OutputsInRange(outs: seq<TxOut>) {
    forall k :: 0 <= k < |outs| ==> OutputInRange(outs, k)
  }

  predicate OutputInRange(outs: seq<TxOut>, k: nat)
    requires k < |outs|
  {
    MoneyRange(outs[k].value) && MoneyRange(SumOut(outs[..k + 1]))
  }

  /** CTransaction::GetValueOut; `None` is the exception it throws. */
  method GetValueOut(tx: Tx) returns (r: Option<int>)
    ensures r.Some? <==> OutputsInRange(tx.vout)
    ensures r.Some? ==> r.value == SumOut(tx.vout)
  {
    var total := 0;
    for i := 0 to |tx.vout|
      invariant total == SumOut(tx.vout[..i])
      invariant forall k :: 0 <= k < i ==> OutputInRange(tx.vout, k)
    {
      assert tx.vout[..i + 1][..i] == tx.vout[..i];
      total := total + tx.vout[i].value;
      assert total == SumOut(tx.vout[..i + 1]);
      if !MoneyRange(tx.vout[i].value) || !MoneyRange(total) {
        assert !OutputInRange(tx.vout, i);
        return None;
      }
    }
    assert tx.vout[..|tx.vout|] == tx.vout;
    return Some(total);
  }

  // ---------------------------------------------------------------- fetching inputs

  function PrevHashes(vin: seq<OutPoint>): (s: set<nat>)
    ensures forall i :: 0 <= i < |vin| ==> vin[i].hash in s
  {
    set i | 0 <= i < |vin| :: vin[i].hash
  }

  function ReadTx(h: nat, e: TxIndex, env: Env): Option<Prev> {
    if e.pos == MEMPOOL_POS then
      if h in env.mempool then Some(Prev(e, env.mempool[h])) else None
    else
      match env.disk(e.pos)
      case Some(tx) => Some(Prev(e, tx))
      case None => None
  }

  /**
   Where FetchInputs finds previous transaction `h`. Block and miner callers (`usePool`) see
   the proposed changes first and never fall back to unindexed pool transactions.
   */
  function Locate(h: nat, db: Index, pool: Index, env: Env, usePool: bool): Option<Prev> {
    if usePool && h in pool then ReadTx(h, pool[h], env)
    else if h in db then ReadTx(h, db[h], env)
    else if usePool then None
    else if h in env.mempool then Some(Prev(TxIndex(NullPos, Nulls(|env.mempool[h].vout|)), env.mempool[h]))
    else None
  }

  predicate AllLocated(tx: Tx, db: Index, pool: Index, env: Env, usePool: bool) {
    forall i :: 0 <= i < |tx.vin| ==> Locate(tx.vin[i].hash, db, pool, env, usePool).Some?
  }

  predicate InputInRange(o: OutPoint, p: Prev) {
    o.n < |p.tx.vout| && o.n < |p.index.spent|
  }

  /** Every previous transaction is found and every output number names one of its outputs. */
  predicate InputsAvailable(tx: Tx, db: Index, pool: Index, env: Env, usePool: bool) {
    && AllLocated(tx, db, pool, env, usePool)
    && forall i :: 0 <= i < |tx.vin| ==> InputInRange(tx.vin[i], Locate(tx.vin[i].hash, db, pool, env, usePool).value)
  }

  /** `inputs` holds exactly the previous transactions of `tx`, each as located. */
  predicate Fetched(tx: Tx, inputs: map<nat, Prev>, db: Index, pool: Index, env: Env, usePool: bool) {
    && inputs.Keys == PrevHashes(tx.vin)
    && (forall h :: h in inputs ==> Locate(h, db, pool, env, usePool) == Some(inputs[h]))
    && (forall i :: 0 <= i < |tx.vin| ==> InputInRange(tx.vin[i], inputs[tx.vin[i].hash]))
  }

  method FetchInputs(tx: Tx, db: Index, pool: Index, env: Env, fBlock: bool, fMiner: bool)
    returns (ok: bool, inputs: map<nat, Prev>, fInvalid: bool)
    ensures tx.IsCoinBase() ==> ok && inputs == map[]
    ensures !tx.IsCoinBase() && ok ==> Fetched(tx, inputs, db, pool, env, fBlock || fMiner)
    ensures !tx.IsCoinBase() ==> (ok <==> InputsAvailable(tx, db, pool, env, fBlock || fMiner))
    ensures fInvalid <==> !tx.IsCoinBase() && !ok && AllLocated(tx, db, pool, env, fBlock || fMiner)
  {
    hide Locate, PrevHashes, InputInRange;
    fInvalid, inputs := false, map[];
    assert PrevHashes(tx.vin[..0]) == {} by {
      NoPrevHashes(tx.vin);
    }
    if tx.IsCoinBase() {
      return true, inputs, fInvalid;
    }
    var usePool := fBlock || fMiner;
    for i := 0 to |tx.vin|
      invariant inputs.Keys == PrevHashes(tx.vin[..i])
      invariant forall h :: h in inputs ==> Locate(h, db, pool, env, usePool) == Some(inputs[h])
    {
      var h := tx.vin[i].hash;
      PrevHashesStep(tx.vin, i);
      if h in inputs {
        continue;
      }
      var found := Locate(h, db, pool, env, usePool);
      if found.None? {
        return false, inputs, false;
      }
      inputs := inputs[h := found.value];
    }
    assert tx.vin[..|tx.vin|] == tx.vin;
    for i := 0 to |tx.vin|
      invariant forall k :: 0 <= k < i ==> InputInRange(tx.vin[k], inputs[tx.vin[k].hash])
    {
      if !InputInRange(tx.vin[i], inputs[tx.vin[i].hash]) {
        return false, inputs, true;
      }
    }
    return true, inputs, false;
  }

  // ---------------------------------------------------------------- marking outputs

  /** Entry `h` with every output that `vin` names set to `p`. */
  function MarkEntry(h: nat, e: TxIndex, vin: seq<OutPoint>, p: DiskTxPos): (r: TxIndex)
    ensures r.pos == e.pos && |r.spent| == |e.spent|
    ensures forall n :: 0 <= n < |e.spent| ==>
      r.spent[n] == if OutPoint(h, n) in vin then p else e.spent[n]
  {
    TxIndex(e.pos, seq(|e.spent|, n requires 0 <= n < |e.spent| => if OutPoint(h, n) in vin then p else e.spent[n]))
  }

  /** The index with every output that `vin` names set to `p`. */
  function SetAll(idx: Index, vin: seq<OutPoint>, p: DiskTxPos): (r: Index)
    ensures r.Keys == idx.Keys
  {
    map h | h in idx :: MarkEntry(h, idx[h], vin, p)
  }

  predicate Indexed(idx: Index, o: OutPoint) {
    o.hash in idx && o.n < |idx[o.hash].spent|
  }

  predicate AllIndexed(idx: Index, vin: seq<OutPoint>) {
    forall i :: 0 <= i < |vin| ==> Indexed(idx, vin[i])
  }

  /** Every output that `vin` names exists and is unspent, and none is named twice. */
  predicate Spendable(idx: Index, vin: seq<OutPoint>) {
    && AllIndexed(idx, vin)
    && NoDuplicates(vin)
    && forall i :: 0 <= i < |vin| ==> idx[vin[i].hash].spent[vin[i].n] == NullPos
  }

  /** Setting outputs one at a time is the same as setting them all. */
  lemma MarkEntryStep(h: nat, e: TxIndex, vin: seq<OutPoint>, i: nat, p: DiskTxPos)
    requires i < |vin|
    ensures MarkEntry(h, e, vin[..i + 1], p) ==
      if vin[i].hash == h && vin[i].n < |e.spent|
      then MarkEntry(h, e, vin[..i], p).(spent := MarkEntry(h, e, vin[..i], p).spent[vin[i].n := p])
      else MarkEntry(h, e, vin[..i], p)
  {
    var before, after := MarkEntry(h, e, vin[..i], p), MarkEntry(h, e, vin[..i + 1], p);
    assert vin[..i + 1] == vin[..i] + [vin[i]];
    forall n | 0 <= n < |e.spent|
      ensures after.spent[n] == if vin[i] == OutPoint(h, n) then p else before.spent[n]
    {
    }
  }

  /** Marking spendable outputs and then clearing the same outputs restores the index. */
  lemma ClearUndoesMark(idx: Index, vin: seq<OutPoint>, p: DiskTxPos)
    requires Spendable(idx, vin)
    ensures AllIndexed(SetAll(idx, vin, p), vin)
    ensures SetAll(SetAll(idx, vin, p), vin, NullPos) == idx
  {
    var back := SetAll(SetAll(idx, vin, p), vin, NullPos);
    forall h | h in idx
      ensures back[h] == idx[h]
    {
      forall n | 0 <= n < |idx[h].spent|
        ensures back[h].spent[n] == idx[h].spent[n]
      {
        if OutPoint(h, n) in vin {
          var i :| 0 <= i < |vin| && vin[i] == OutPoint(h, n);
        }
      }
      assert back[h].spent == idx[h].spent;
    }
  }

  // ---------------------------------------------------------------- connecting inputs

  function InputValue(o: OutPoint, inputs: map<nat, Prev>): int
    requires o.hash in inputs && o.n < |inputs[o.hash].tx.vout|
  {
    inputs[o.hash].tx.vout[o.n].value
  }

  predicate InputsKnown(vin: seq<OutPoint>, inputs: map<nat, Prev>) {
    forall i :: 0 <= i < |vin| ==> vin[i].hash in inputs && InputInRange(vin[i], inputs[vin[i].hash])
  }

  /** CTransaction::GetValueIn of a transaction that is not a coinbase. */
  function SumIn(vin: seq<OutPoint>, inputs: map<nat, Prev>): int
    requires InputsKnown(vin, inputs)
  {
    if vin == [] then 0
    else SumIn(vin[..|vin| - 1], inputs) + InputValue(vin[|vin| - 1], inputs)
  }

  /** The inexpensive checks on input `i`. */
  predicate InputOk(tx: Tx, i: nat, inputs: map<nat, Prev>, env: Env)
    requires i < |tx.vin| && InputsKnown(tx.vin, inputs)
  {
    var p := inputs[tx.vin[i].hash];
    && !((p.tx.IsCoinBase() || p.tx.IsCoinStake()) && env.immature(p.index))
    && p.tx.time <= tx.time
    && !p.tx.vout[tx.vin[i].n].IsEmpty()
    && MoneyRange(InputValue(tx.vin[i], inputs))
    && MoneyRange(SumIn(tx.vin[..i + 1], inputs))
  }

  /** Output `i` is still unspent when its turn comes, and its signature verifies. */
  predicate UnspentAndSigned(tx: Tx, i: nat, inputs: map<nat, Prev>, env: Env)
    requires i < |tx.vin| && InputsKnown(tx.vin, inputs)
  {
    var p := inputs[tx.vin[i].hash];
    && p.index.spent[tx.vin[i].n] == NullPos
    && tx.vin[i] !in tx.vin[..i]
    && env.sigOk(p.tx, tx, i)
  }

  /** Everything ConnectInputs demands of a transaction that is not a coinbase. */
  predicate InputsConnect(tx: Tx, inputs: map<nat, Prev>, env: Env)
    requires InputsKnown(tx.vin, inputs)
  {
    && (forall i :: 0 <= i < |tx.vin| ==> InputOk(tx, i, inputs, env))
    && (forall i :: 0 <= i < |tx.vin| ==> UnspentAndSigned(tx, i, inputs, env))
    && (!tx.IsCoinStake() ==> 0 <= SumIn(tx.vin, inputs) - SumOut(tx.vout) <= MAX_MONEY)
  }

  /** Every previous transaction was fetched. */
  predicate AllFetched(vin: seq<OutPoint>, inputs: map<nat, Prev>) {
    forall i :: 0 <= i < |vin| ==> vin[i].hash in inputs
  }

  /**
   The first pass of ConnectInputs: every cheap check, and the total value in. The test of the output number is
   taken ahead of the others.
   */
  method CheckInputs(tx: Tx, inputs: map<nat, Prev>, env: Env) returns (ok: bool, valueIn: int)
    requires AllFetched(tx.vin, inputs)
    ensures ok <==> InputsKnown(tx.vin, inputs) && forall i :: 0 <= i < |tx.vin| ==> InputOk(tx, i, inputs, env)
    ensures ok ==> valueIn == SumIn(tx.vin, inputs)
  {
    valueIn := 0;
    for i := 0 to |tx.vin|
      invariant forall k :: 0 <= k < i ==> InputInRange(tx.vin[k], inputs[tx.vin[k].hash])
    {
      if !InputInRange(tx.vin[i], inputs[tx.vin[i].hash]) {
        return false, valueIn;
      }
    }
    for i := 0 to |tx.vin|
      invariant valueIn == SumIn(tx.vin[..i], inputs)
      invariant forall k :: 0 <= k < i ==> InputOk(tx, k, inputs, env)
    {
      var p := inputs[tx.vin[i].hash];
      assert tx.vin[..i + 1][..i] == tx.vin[..i];
      if p.tx.IsCoinBase() || p.tx.IsCoinStake() {
        if env.immature(p.index) {
          assert !InputOk(tx, i, inputs, env);
          return false, valueIn;
        }
      }
      if p.tx.time > tx.time || p.tx.vout[tx.vin[i].n].IsEmpty() {
        assert !InputOk(tx, i, inputs, env);
        return false, valueIn;
      }
      valueIn := valueIn + p.tx.vout[tx.vin[i].n].value;
      if !MoneyRange(p.tx.vout[tx.vin[i].n].value) || !MoneyRange(valueIn) {
        assert !InputOk(tx, i, inputs, env);
        return false, valueIn;
      }
    }
    assert tx.vin[..|tx.vin|] == tx.vin;
    return true, valueIn;
  }

  /** `pool` after the first `i` inputs of `vin` were written back. */
  ghost predicate PoolMarked(pool': Index, pool: Index, vin: seq<OutPoint>, inputs: map<nat, Prev>, pos: DiskTxPos)
    requires InputsKnown(vin, inputs)
  {
    && pool'.Keys == pool.Keys + PrevHashes(vin)
    && (forall h :: h in pool' && h !in PrevHashes(vin) ==> pool'[h] == pool[h])
    && (forall h :: h in PrevHashes(vin) ==> pool'[h] == MarkEntry(h, inputs[h].index, vin, pos))
  }

  /**
   The second pass: spend each output in turn on a private copy of the fetched entries and
   write every changed entry back to the proposed changes.
   */
  method SpendInputs(tx: Tx, inputs: map<nat, Prev>, pool: Index, pos: DiskTxPos, env: Env, usePool: bool)
    returns (ok: bool, pool': Index)
    requires InputsKnown(tx.vin, inputs) && pos != NullPos
    ensures ok <==> forall i :: 0 <= i < |tx.vin| ==> UnspentAndSigned(tx, i, inputs, env)
    ensures ok && usePool ==> PoolMarked(pool', pool, tx.vin, inputs, pos)
    ensures !usePool ==> pool' == pool
  {
    hide MarkEntry, PoolMarked, UnspentAndSigned, InputInRange;
    pool' := pool;
    var own := inputs;
    SpendStart(tx.vin, inputs, pool, pos);
    for i := 0 to |tx.vin|
      invariant own.Keys == inputs.Keys
      invariant forall h :: h in own ==>
        own[h].tx == inputs[h].tx && own[h].index == MarkEntry(h, inputs[h].index, tx.vin[..i], pos)
      invariant forall k :: 0 <= k < i ==> UnspentAndSigned(tx, k, inputs, env)
      invariant usePool ==> PoolMarked(pool', pool, tx.vin[..i], inputs, pos)
      invariant !usePool ==> pool' == pool
    {
      var o := tx.vin[i];
      var p := own[o.hash];
      TurnMeans(tx, i, inputs, p, pos, env);
      if p.index.spent[o.n] != NullPos {
        return false, pool';
      }
      if !env.sigOk(p.tx, tx, i) {
        return false, pool';
      }
      SpendStep(tx.vin, i, inputs, own, pool, pool', pos, usePool);
      own := own[o.hash := p.(index := p.index.(spent := p.index.spent[o.n := pos]))];
      if usePool {
        pool' := pool'[o.hash := own[o.hash].index];
      }
    }
    assert tx.vin[..|tx.vin|] == tx.vin;
    return true, pool';
  }

  lemma SpendStart(vin: seq<OutPoint>, inputs: map<nat, Prev>, pool: Index, pos: DiskTxPos)
    requires InputsKnown(vin, inputs)
    ensures forall i :: 0 <= i <= |vin| ==> InputsKnown(vin[..i], inputs)
    ensures forall h :: h in inputs ==> inputs[h].index == MarkEntry(h, inputs[h].index, vin[..0], pos)
    ensures PoolMarked(pool, pool, vin[..0], inputs, pos)
  {
    forall h | h in inputs
      ensures inputs[h].index == MarkEntry(h, inputs[h].index, vin[..0], pos)
    {
      UntouchedEntry(h, inputs[h].index, vin[..0], pos);
    }
  }

  /** What the private copy `p` says when the turn of input `i` comes. */
  lemma TurnMeans(tx: Tx, i: nat, inputs: map<nat, Prev>, p: Prev, pos: DiskTxPos, env: Env)
    requires i < |tx.vin| && InputsKnown(tx.vin, inputs) && pos != NullPos
    requires p.tx == inputs[tx.vin[i].hash].tx
    requires p.index == MarkEntry(tx.vin[i].hash, inputs[tx.vin[i].hash].index, tx.vin[..i], pos)
    ensures tx.vin[i].hash in inputs && tx.vin[i].n < |p.index.spent|
    ensures p.index.spent[tx.vin[i].n] == NullPos && env.sigOk(p.tx, tx, i) <==> UnspentAndSigned(tx, i, inputs, env)
  {
    var o := tx.vin[i];
    assert InputInRange(o, inputs[o.hash]);
    assert OutPoint(o.hash, o.n) == o;
  }

  lemma SpendStep(vin: seq<OutPoint>, i: nat, inputs: map<nat, Prev>, own: map<nat, Prev>,
                  pool: Index, pool': Index, pos: DiskTxPos, usePool: bool)
    requires i < |vin| && InputsKnown(vin, inputs)
    requires own.Keys == inputs.Keys
    requires forall h :: h in own ==>
      own[h].tx == inputs[h].tx && own[h].index == MarkEntry(h, inputs[h].index, vin[..i], pos)
    requires usePool ==> PoolMarked(pool', pool, vin[..i], inputs, pos)
    ensures vin[i].n < |own[vin[i].hash].index.spent|
    ensures own[vin[i].hash].index.(spent := own[vin[i].hash].index.spent[vin[i].n := pos])
      == MarkEntry(vin[i].hash, inputs[vin[i].hash].index, vin[..i + 1], pos)
    ensures forall h :: h in own && h != vin[i].hash ==>
      own[h].index == MarkEntry(h, inputs[h].index, vin[..i + 1], pos)
    ensures usePool ==>
      PoolMarked(pool'[vin[i].hash := MarkEntry(vin[i].hash, inputs[vin[i].hash].index, vin[..i + 1], pos)],
                 pool, vin[..i + 1], inputs, pos)
  {
    assert InputInRange(vin[i], inputs[vin[i].hash]);
    forall h | h in own {
      MarkEntryStep(h, inputs[h].index, vin, i, pos);
    }
    if usePool {
      PoolMarkedStep(vin, i, inputs, pool, pool', pos);
    }
  }

  lemma PoolMarkedStep(vin: seq<OutPoint>, i: nat, inputs: map<nat, Prev>, pool: Index, pool': Index, pos: DiskTxPos)
    requires i < |vin| && InputsKnown(vin, inputs)
    requires PoolMarked(pool', pool, vin[..i], inputs, pos)
    ensures PoolMarked(pool'[vin[i].hash := MarkEntry(vin[i].hash, inputs[vin[i].hash].index, vin[..i + 1], pos)],
                       pool, vin[..i + 1], inputs, pos)
  {
    hide MarkEntry, PrevHashes;
    PrevHashesStep(vin, i);
    forall h | h in PrevHashes(vin[..i]) && h != vin[i].hash
      ensures MarkEntry(h, inputs[h].index, vin[..i + 1], pos) == MarkEntry(h, inputs[h].index, vin[..i], pos)
    {
      MarkEntryStep(h, inputs[h].index, vin, i, pos);
    }
  }

  lemma NoPrevHashes(vin: seq<OutPoint>)
    ensures PrevHashes(vin[..0]) == {}
  {
  }

  lemma PrevHashesStep(vin: seq<OutPoint>, i: nat)
    requires i < |vin|
    ensures PrevHashes(vin[..i + 1]) == PrevHashes(vin[..i]) + {vin[i].hash}
    ensures forall h :: h in PrevHashes(vin[..i]) ==> exists k :: 0 <= k < i && vin[k].hash == h
  {
    assert vin[..i + 1] == vin[..i] + [vin[i]];
  }

  /** CTransaction::ConnectInputs; the exception that GetValueOut throws counts as failure. */
  method ConnectInputs(tx: Tx, inputs: map<nat, Prev>, pool: Index, pos: DiskTxPos, env: Env, fBlock: bool, fMiner: bool)
    returns (ok: bool, pool': Index)
    requires pos != NullPos
    requires !tx.IsCoinBase() ==> AllFetched(tx.vin, inputs)
    ensures tx.IsCoinBase() ==> ok && pool' == pool
    ensures !tx.IsCoinBase() ==>
      (ok <==> InputsKnown(tx.vin, inputs) && InputsConnect(tx, inputs, env) && (tx.IsCoinStake() || OutputsInRange(tx.vout)))
    ensures !tx.IsCoinBase() && ok && (fBlock || fMiner) ==> PoolMarked(pool', pool, tx.vin, inputs, pos)
    ensures !(fBlock || fMiner) ==> pool' == pool
  {
    pool' := pool;
    if tx.IsCoinBase() {
      return true, pool';
    }
    var valueIn;
    ok, valueIn := CheckInputs(tx, inputs, env);
    if !ok {
      return false, pool';
    }
    ok, pool' := SpendInputs(tx, inputs, pool, pos, env, fBlock || fMiner);
    if !ok {
      return false, pool';
    }
    if !tx.IsCoinStake() {
      var valueOut := GetValueOut(tx);
      if valueOut.None? || valueIn < valueOut.value || !MoneyRange(valueIn - valueOut.value) {
        return false, pool';
      }
    }
    return true, pool';
  }

  // ---------------------------------------------------------------- one transaction on the index

  /** What the index sees of `db` under the proposed changes `pool`. */
  function View(db: Index, pool: Index): Index {
    db + pool
  }

  /** The index after `tx`, stored at `pos`, is connected. */
  function ApplyTx(idx: Index, tx: Tx, pos: DiskTxPos): Index {
    (if tx.IsCoinBase() then idx else SetAll(idx, tx.vin, pos))[tx.id := FreshEntry(tx, pos)]
  }

  predicate CanApply(idx: Index, tx: Tx) {
    tx.IsCoinBase() || Spendable(idx, tx.vin)
  }

  /** The index after `tx` is disconnected. */
  function UndoTx(idx: Index, tx: Tx): Index {
    (if tx.IsCoinBase() then idx else SetAll(idx, tx.vin, NullPos)) - {tx.id}
  }

  predicate CanUndo(idx: Index, tx: Tx) {
    tx.IsCoinBase() || AllIndexed(idx, tx.vin)
  }

  /** The outputs a connected transaction names are spendable in the view it was fetched from. */
  lemma ConnectedIsSpendable(tx: Tx, inputs: map<nat, Prev>, db: Index, pool: Index, env: Env)
    requires Fetched(tx, inputs, db, pool, env, true)
    requires forall i :: 0 <= i < |tx.vin| ==> UnspentAndSigned(tx, i, inputs, env)
    ensures Spendable(View(db, pool), tx.vin)
  {
    forall i | 0 <= i < |tx.vin|
      ensures Indexed(View(db, pool), tx.vin[i])
      ensures View(db, pool)[tx.vin[i].hash].spent[tx.vin[i].n] == NullPos
    {
      assert InputInRange(tx.vin[i], inputs[tx.vin[i].hash]);
      assert UnspentAndSigned(tx, i, inputs, env);
    }
    forall i, j | 0 <= i < j < |tx.vin|
      ensures tx.vin[i] != tx.vin[j]
    {
      assert UnspentAndSigned(tx, j, inputs, env);
      assert tx.vin[..j][i] == tx.vin[i];
    }
  }

  /** Every fetched entry is the view's entry. */
  lemma FetchedFromView(tx: Tx, inputs: map<nat, Prev>, db: Index, pool: Index, env: Env)
    requires Fetched(tx, inputs, db, pool, env, true)
    ensures InputsKnown(tx.vin, inputs)
    ensures forall h :: h in PrevHashes(tx.vin) ==> h in View(db, pool) && View(db, pool)[h] == inputs[h].index
  {
  }

  /** Writing the marked entries back acts on the view as marking the view does. */
  lemma MarkedPoolIsMarkedView(vin: seq<OutPoint>, inputs: map<nat, Prev>, db: Index, pool: Index, pool': Index, pos: DiskTxPos)
    requires InputsKnown(vin, inputs)
    requires forall h :: h in PrevHashes(vin) ==> h in View(db, pool) && View(db, pool)[h] == inputs[h].index
    requires PoolMarked(pool', pool, vin, inputs, pos)
    ensures View(db, pool') == SetAll(View(db, pool), vin, pos)
  {
    var v, v' := View(db, pool), View(db, pool');
    assert v'.Keys == v.Keys;
    forall h | h in v
      ensures v'[h] == MarkEntry(h, v[h], vin, pos)
    {
      if h !in PrevHashes(vin) {
        UntouchedEntry(h, v[h], vin, pos);
      }
    }
  }

  /** A successful fetch and connect in block or miner mode acts on the view as `ApplyTx` does. */
  lemma ConnectActsOnView(tx: Tx, inputs: map<nat, Prev>, db: Index, pool: Index, pool': Index, pos: DiskTxPos, env: Env)
    requires !tx.IsCoinBase()
    requires Fetched(tx, inputs, db, pool, env, true)
    requires InputsConnect(tx, inputs, env)
    requires PoolMarked(pool', pool, tx.vin, inputs, pos)
    ensures Spendable(View(db, pool), tx.vin)
    ensures View(db, pool'[tx.id := FreshEntry(tx, pos)]) == ApplyTx(View(db, pool), tx, pos)
  {
    assert Spendable(View(db, pool), tx.vin) by {
      ConnectedIsSpendable(tx, inputs, db, pool, env);
    }
    assert View(db, pool') == SetAll(View(db, pool), tx.vin, pos) by {
      FetchedFromView(tx, inputs, db, pool, env);
      MarkedPoolIsMarkedView(tx.vin, inputs, db, pool, pool', pos);
    }
    ViewUpdate(db, pool', tx.id, FreshEntry(tx, pos));
  }

  lemma ViewUpdate(db: Index, pool: Index, h: nat, e: TxIndex)
    ensures View(db, pool[h := e]) == View(db, pool)[h := e]
  {
  }

  lemma UntouchedEntry(h: nat, e: TxIndex, vin: seq<OutPoint>, p: DiskTxPos)
    requires h !in PrevHashes(vin)
    ensures MarkEntry(h, e, vin, p) == e
  {
    assert MarkEntry(h, e, vin, p).spent == e.spent;
  }

  /** CTransaction::DisconnectInputs, on the index a database transaction sees. */
  method DisconnectInputs(tx: Tx, idx: Index) returns (ok: bool, idx': Index)
    ensures ok <==> CanUndo(idx, tx)
    ensures ok ==> idx' == UndoTx(idx, tx)
  {
    idx' := idx;
    if !tx.IsCoinBase() {
      SetNone(idx, NullPos);
      for i := 0 to |tx.vin|
        invariant forall k :: 0 <= k < i ==> Indexed(idx, tx.vin[k])
        invariant idx' == SetAll(idx, tx.vin[..i], NullPos)
      {
        var o := tx.vin[i];
        if !Indexed(idx', o) {
          assert !Indexed(idx, tx.vin[i]);
          return false, idx';
        }
        SetAllStep(idx, tx.vin, i, NullPos);
        idx' := idx'[o.hash := idx'[o.hash].(spent := idx'[o.hash].spent[o.n := NullPos])];
      }
      assert tx.vin[..|tx.vin|] == tx.vin;
    }
    idx' := idx' - {tx.id};
    return true, idx';
  }

  lemma SetNone(idx: Index, p: DiskTxPos)
    ensures SetAll(idx, [], p) == idx
  {
    forall h | h in idx {
      UntouchedEntry(h, idx[h], [], p);
    }
  }

  lemma SetAllStep(idx: Index, vin: seq<OutPoint>, i: nat, p: DiskTxPos)
    requires i < |vin| && Indexed(idx, vin[i])
    ensures var s := SetAll(idx, vin[..i], p);
      SetAll(idx, vin[..i + 1], p) == s[vin[i].hash := s[vin[i].hash].(spent := s[vin[i].hash].spent[vin[i].n := p])]
  {
    forall h | h in idx {
      MarkEntryStep(h, idx[h], vin, i, p);
    }
  }

  /**
   Disconnecting undoes connecting exactly when the connected transaction was not in the index before;
   a completely spent entry that was overwritten is erased instead.
   */
  lemma UndoTxIffFresh(idx: Index, tx: Tx, pos: DiskTxPos)
    requires CanApply(idx, tx) && tx.id !in PrevHashes(tx.vin)
    ensures CanUndo(ApplyTx(idx, tx, pos), tx)
    ensures UndoTx(ApplyTx(idx, tx, pos), tx) == idx <==> tx.id !in idx
  {
    hide MarkEntry, Spendable;
    var after := ApplyTx(idx, tx, pos);
    if tx.IsCoinBase() {
      assert UndoTx(after, tx) == idx - {tx.id};
    } else {
      ClearUndoesMark(idx, tx.vin, pos);
      UndoErases(SetAll(idx, tx.vin, pos), tx, FreshEntry(tx, pos));
    }
  }

  /** Clearing the inputs of `tx` and erasing its entry ignores what that entry was. */
  lemma UndoErases(marked: Index, tx: Tx, e: TxIndex)
    requires AllIndexed(marked, tx.vin) && tx.id !in PrevHashes(tx.vin)
    ensures AllIndexed(marked[tx.id := e], tx.vin)
    ensures SetAll(marked[tx.id := e], tx.vin, NullPos) - {tx.id} == SetAll(marked, tx.vin, NullPos) - {tx.id}
  {
    hide MarkEntry;
    forall i | 0 <= i < |tx.vin|
      ensures Indexed(marked[tx.id := e], tx.vin[i])
    {
      assert Indexed(marked, tx.vin[i]);
    }
  }

  /** Undoing a fresh transaction restores the index. */
  lemma UndoFreshTx(idx: Index, tx: Tx, pos: DiskTxPos)
    requires CanApply(idx, tx) && tx.id !in idx
    ensures CanUndo(ApplyTx(idx, tx, pos), tx)
    ensures UndoTx(ApplyTx(idx, tx, pos), tx) == idx
  {
    if tx.IsCoinBase() {
      assert UndoTx(ApplyTx(idx, tx, pos), tx) == idx;
    } else {
      assert tx.id !in PrevHashes(tx.vin);
      UndoTxIffFresh(idx, tx, pos);
    }
  }
}
