/**
 The block assembler: CreateNewBlock's pass over the memory pool, its priority queue with
 dependency sets, and the trial spent-output index it fills.

 Priority and fee rate are arbitrary functions of the transaction, so every result holds for
 whatever the floating-point formulas yield. The heap is a sequence whose greatest entry is removed.
 */
module Miner {
  import opened Wrappers
  import opened Sequences
  import opened Ledger
  import opened Blocks
  import opened Replay

  const MAX_BLOCK_SIZE := 20_000_000

  /** COIN * 144 / 250, below which a priority is not "high". */
  const HIGH_PRIORITY := 57_600_000.0

  /** The node's options, the clock and the kind of block wanted. */
  datatype Policy = Policy(blockMaxSize: nat, blockPrioritySize: nat, blockMinSize: nat, minTxFee: int,
                           adjustedTime: nat, proofOfStake: bool, coinbaseTime: nat) {
    function MaxSize(): (n: nat)
      ensures 1000 <= n <= MAX_BLOCK_SIZE - 1000
    {
      var n := if blockMaxSize < MAX_BLOCK_SIZE - 1000 then blockMaxSize else MAX_BLOCK_SIZE - 1000;
      if n < 1000 then 1000 else n
    }

    function PrioritySize(): nat {
      if MaxSize() < blockPrioritySize then MaxSize() else blockPrioritySize
    }

    function MinSize(): nat {
      if MaxSize() < blockMinSize then MaxSize() else blockMinSize
    }
  }

  /** What CreateNewBlock reads: the index, the environment with its memory pool, and the oracles. */
  datatype Job = Job(db: Index, env: Env, isFinal: Tx -> bool, priority: Tx -> real, feePerKb: Tx -> real,
                     policy: Policy)

  datatype Entry = Entry(priority: real, feePerKb: real, tx: Tx)

  /** COrphan: a transaction that waits for pool transactions it spends from. */
  datatype Orphan = Orphan(tx: Tx, dependsOn: set<nat>, priority: real, feePerKb: real)

  /** TxPriorityCompare: `a` ranks below `b`. */
  predicate Below(a: Entry, b: Entry, byFee: bool) {
    if byFee then
      if a.feePerKb == b.feePerKb then a.priority < b.priority else a.feePerKb < b.feePerKb
    else
      if a.priority == b.priority then a.feePerKb < b.feePerKb else a.priority < b.priority
  }

  // ---------------------------------------------------------------- the pool and its dependencies

  /** ReadFromDisk finds the output's transaction in the chain, and the output exists. */
  predicate Readable(j: Job, o: OutPoint) {
    && o.hash in j.db
    && j.env.disk(j.db[o.hash].pos).Some?
    && o.n < |j.env.disk(j.db[o.hash].pos).value.vout|
  }

  predicate Missing(j: Job, o: OutPoint) {
    !Readable(j, o) && o.hash !in j.env.mempool
  }

  /** The pool transactions among the first `k` inputs of `tx` that the chain does not hold. */
  function Deps(j: Job, tx: Tx, k: nat): set<nat>
    requires k <= |tx.vin|
  {
    set i | 0 <= i < k && !Readable(j, tx.vin[i]) :: tx.vin[i].hash
  }

  function DependsOn(j: Job, tx: Tx): set<nat> {
    Deps(j, tx, |tx.vin|)
  }

  /** The pool transactions that the template may take. */
  predicate Eligible(j: Job, h: nat) {
    && h in j.env.mempool
    && Wanted(j, j.env.mempool[h])
    && forall i :: 0 <= i < |j.env.mempool[h].vin| ==> !Missing(j, j.env.mempool[h].vin[i])
  }

  predicate Wanted(j: Job, tx: Tx) {
    !tx.IsCoinBase() && !tx.IsCoinStake() && j.isFinal(tx)
  }

  /**
   The pool holds transactions under their own ids, none already in the chain, all with outputs in
   range; and no input is missing behind one that waits (the source then keeps a pointer to a
   dropped entry).
   */
  predicate PoolOk(j: Job) {
    && (forall h :: h in j.env.mempool ==>
          j.env.mempool[h].id == h && h !in j.db && OutputsInRange(j.env.mempool[h].vout))
    && (forall h :: h in j.env.mempool ==> NoneDangling(j, j.env.mempool[h]))
  }

  predicate NoneDangling(j: Job, tx: Tx) {
    forall i :: 0 <= i < |tx.vin| && Missing(j, tx.vin[i]) ==> Deps(j, tx, i) == {}
  }

  // ---------------------------------------------------------------- the first pass

  predicate Lists(dependers: map<nat, seq<nat>>, p: nat, h: nat) {
    p in dependers && h in dependers[p]
  }

  function ListedUnder(dependers: map<nat, seq<nat>>, p: nat): seq<nat> {
    if p in dependers then dependers[p] else []
  }

  lemma RegisterWith(dependers: map<nat, seq<nat>>, q: nat, h: nat)
    ensures var d := dependers[q := ListedUnder(dependers, q) + [h]];
      forall p, x :: Lists(d, p, x) <==> Lists(dependers, p, x) || (p == q && x == h)
  {
  }

  /** Walk the inputs of pool transaction `h`: note what it waits for and register it with each. */
  method ScanInputs(j: Job, h: nat, dependers: map<nat, seq<nat>>)
    returns (missing: bool, deps: set<nat>, dependers': map<nat, seq<nat>>)
    requires PoolOk(j) && h in j.env.mempool
    ensures missing <==> exists i :: 0 <= i < |j.env.mempool[h].vin| && Missing(j, j.env.mempool[h].vin[i])
    ensures !missing ==> deps == DependsOn(j, j.env.mempool[h])
    ensures forall p, x :: Lists(dependers', p, x) <==> Lists(dependers, p, x) || (!missing && x == h && p in deps)
  {
    var tx := j.env.mempool[h];
    missing, deps, dependers' := false, {}, dependers;
    for i := 0 to |tx.vin|
      invariant forall k :: 0 <= k < i ==> !Missing(j, tx.vin[k])
      invariant deps == Deps(j, tx, i)
      invariant forall p, x :: Lists(dependers', p, x) <==> Lists(dependers, p, x) || (x == h && p in deps)
    {
      var o := tx.vin[i];
      assert Deps(j, tx, i + 1) == Deps(j, tx, i) + if Readable(j, o) then {} else {o.hash};
      if !Readable(j, o) {
        if o.hash !in j.env.mempool {
          assert Missing(j, tx.vin[i]) && NoneDangling(j, tx);
          return true, deps, dependers';
        }
        RegisterWith(dependers', o.hash, h);
        dependers' := dependers'[o.hash := ListedUnder(dependers', o.hash) + [h]];
        deps := deps + {o.hash};
      }
    }
  }

  function EntryOf(j: Job, tx: Tx): Entry {
    Entry(j.priority(tx), j.feePerKb(tx), tx)
  }

  predicate QueueOk(j: Job, queue: seq<Entry>) {
    && (forall i :: 0 <= i < |queue| ==>
          queue[i].tx.id in j.env.mempool && queue[i] == EntryOf(j, j.env.mempool[queue[i].tx.id]))
    && (forall a, b :: 0 <= a < b < |queue| ==> queue[a].tx.id != queue[b].tx.id)
  }

  function QueueIds(queue: seq<Entry>): (s: set<nat>)
    ensures forall i :: 0 <= i < |queue| ==> queue[i].tx.id in s
  {
    set i | 0 <= i < |queue| :: queue[i].tx.id
  }

  lemma QueueIdsAppend(queue: seq<Entry>, e: Entry)
    ensures QueueIds(queue + [e]) == QueueIds(queue) + {e.tx.id}
  {
    forall h | h in QueueIds(queue) + {e.tx.id}
      ensures h in QueueIds(queue + [e])
    {
      if h == e.tx.id {
        assert (queue + [e])[|queue|] == e;
      } else {
        var i :| 0 <= i < |queue| && queue[i].tx.id == h;
        assert (queue + [e])[i] == queue[i];
      }
    }
  }

  /** Who waits and who may go, of the pool transactions `seen`. */
  ghost predicate Collected(j: Job, seen: set<nat>, queue: seq<Entry>, waiting: map<nat, Orphan>,
                      dependers: map<nat, seq<nat>>) {
    && seen <= j.env.mempool.Keys
    && QueueOk(j, queue)
    && (forall h :: h in QueueIds(queue) <==> h in seen && Eligible(j, h) && DependsOn(j, j.env.mempool[h]) == {})
    && (forall h :: h in waiting <==> h in seen && Eligible(j, h) && DependsOn(j, j.env.mempool[h]) != {})
    && (forall h :: h in waiting ==> var tx := j.env.mempool[h];
          waiting[h] == Orphan(tx, DependsOn(j, tx), j.priority(tx), j.feePerKb(tx)))
    && Registered(dependers, waiting)
  }

  ghost predicate Registered(dependers: map<nat, seq<nat>>, waiting: map<nat, Orphan>) {
    && (forall h, p :: h in waiting && p in waiting[h].dependsOn ==> Lists(dependers, p, h))
    && (forall p :: p in dependers ==> forall i :: 0 <= i < |dependers[p]| ==>
          dependers[p][i] in waiting && p in waiting[dependers[p][i]].dependsOn)
  }

  method Collect(j: Job) returns (queue: seq<Entry>, waiting: map<nat, Orphan>, dependers: map<nat, seq<nat>>)
    requires PoolOk(j)
    ensures Collected(j, j.env.mempool.Keys, queue, waiting, dependers)
  {
    queue, waiting, dependers := [], map[], map[];
    var rest := j.env.mempool.Keys;
    while rest != {}
      invariant rest <= j.env.mempool.Keys
      invariant Collected(j, j.env.mempool.Keys - rest, queue, waiting, dependers)
    {
      var h :| h in rest;
      ghost var seen := j.env.mempool.Keys - rest;
      rest := rest - {h};
      assert j.env.mempool.Keys - rest == seen + {h};
      var tx := j.env.mempool[h];
      if !Wanted(j, tx) {
        continue;
      }
      var missing, deps, dependers' := ScanInputs(j, h, dependers);
      CollectStep(j, seen, h, queue, waiting, dependers, missing, deps, dependers');
      dependers := dependers';
      if missing {
        continue;
      }
      if deps != {} {
        waiting := waiting[h := Orphan(tx, deps, j.priority(tx), j.feePerKb(tx))];
      } else {
        queue := queue + [EntryOf(j, tx)];
      }
    }
  }

  lemma CollectStep(j: Job, seen: set<nat>, h: nat, queue: seq<Entry>, waiting: map<nat, Orphan>,
                    dependers: map<nat, seq<nat>>, missing: bool, deps: set<nat>, dependers': map<nat, seq<nat>>)
    requires PoolOk(j) && h in j.env.mempool && h !in seen && Wanted(j, j.env.mempool[h])
    requires Collected(j, seen, queue, waiting, dependers)
    requires missing <==> exists i :: 0 <= i < |j.env.mempool[h].vin| && Missing(j, j.env.mempool[h].vin[i])
    requires !missing ==> deps == DependsOn(j, j.env.mempool[h])
    requires forall p, x :: Lists(dependers', p, x) <==> Lists(dependers, p, x) || (!missing && x == h && p in deps)
    ensures var tx := j.env.mempool[h];
      if missing then Collected(j, seen + {h}, queue, waiting, dependers')
      else if deps != {} then
        Collected(j, seen + {h}, queue, waiting[h := Orphan(tx, deps, j.priority(tx), j.feePerKb(tx))], dependers')
      else Collected(j, seen + {h}, queue + [EntryOf(j, tx)], waiting, dependers')
  {
    hide DependsOn, Missing, NoneDangling;
    var tx := j.env.mempool[h];
    assert Eligible(j, h) <==> !missing;
    var waiting' := if !missing && deps != {} then waiting[h := Orphan(tx, deps, j.priority(tx), j.feePerKb(tx))] else waiting;
    assert Registered(dependers', waiting') by {
      RegisterStep(h, waiting, waiting', dependers, dependers');
    }
    if !missing && deps == {} {
      var queue' := queue + [EntryOf(j, tx)];
      QueueIdsAppend(queue, EntryOf(j, tx));
      assert QueueIds(queue') == QueueIds(queue) + {h};
    }
  }

  lemma RegisterStep(h: nat, waiting: map<nat, Orphan>, waiting': map<nat, Orphan>,
                     dependers: map<nat, seq<nat>>, dependers': map<nat, seq<nat>>)
    requires Registered(dependers, waiting) && h !in waiting
    requires waiting' == waiting || (h in waiting' && waiting' == waiting[h := waiting'[h]])
    requires forall p, x :: Lists(dependers', p, x) <==>
      Lists(dependers, p, x) || (h in waiting' && x == h && p in waiting'[h].dependsOn)
    ensures Registered(dependers', waiting')
  {
    forall p | p in dependers'
      ensures forall i :: 0 <= i < |dependers'[p]| ==>
        dependers'[p][i] in waiting' && p in waiting'[dependers'[p][i]].dependsOn
    {
      forall i | 0 <= i < |dependers'[p]|
        ensures dependers'[p][i] in waiting' && p in waiting'[dependers'[p][i]].dependsOn
      {
        assert Lists(dependers', p, dependers'[p][i]);
      }
    }
  }

  // ---------------------------------------------------------------- the priority queue

  /** pop_heap: remove an entry that no other entry outranks. */
  method PopBest(queue: seq<Entry>, byFee: bool) returns (best: Entry, rest: seq<Entry>, ghost at: nat)
    requires queue != []
    ensures at < |queue| && best == queue[at] && rest == queue[..at] + queue[at + 1..]
    ensures forall i :: 0 <= i < |queue| ==> !Below(best, queue[i], byFee)
    ensures byFee ==> forall i :: 0 <= i < |queue| ==>
      queue[i].feePerKb < best.feePerKb || (queue[i].feePerKb == best.feePerKb && queue[i].priority <= best.priority)
    ensures !byFee ==> forall i :: 0 <= i < |queue| ==>
      queue[i].priority < best.priority || (queue[i].priority == best.priority && queue[i].feePerKb <= best.feePerKb)
  {
    var k := 0;
    for i := 1 to |queue|
      invariant 0 <= k < i
      invariant forall a :: 0 <= a < i ==> !Below(queue[k], queue[a], byFee)
    {
      if Below(queue[k], queue[i], byFee) {
        k := i;
      }
    }
    return queue[k], queue[..k] + queue[k + 1..], k;
  }

  lemma PopKeepsOk(j: Job, queue: seq<Entry>, at: nat)
    requires QueueOk(j, queue) && at < |queue|
    ensures QueueOk(j, queue[..at] + queue[at + 1..])
    ensures queue[at].tx.id !in QueueIds(queue[..at] + queue[at + 1..])
    ensures QueueIds(queue) == QueueIds(queue[..at] + queue[at + 1..]) + {queue[at].tx.id}
  {
    hide EntryOf;
    var rest := queue[..at] + queue[at + 1..];
    forall i | 0 <= i < |rest|
      ensures rest[i] == queue[if i < at then i else i + 1]
    {
    }
    forall i | 0 <= i < |queue| && i != at
      ensures queue[i].tx.id in QueueIds(rest)
    {
      assert rest[if i < at then i else i - 1] == queue[i];
    }
  }

  /** Who is freed when `hash` no longer has to be waited for. */
  function Freed(waiting: map<nat, Orphan>, hash: nat): set<nat> {
    set h | h in waiting && waiting[h].dependsOn == {hash}
  }

  function Without(waiting: map<nat, Orphan>, hash: nat): map<nat, Orphan> {
    map h | h in waiting :: waiting[h].(dependsOn := waiting[h].dependsOn - {hash})
  }

  /** The waiting entries match their pool transactions. */
  predicate WaitingOk(j: Job, waiting: map<nat, Orphan>) {
    forall h :: h in waiting ==> h in j.env.mempool && WaitsAs(j, h, waiting[h])
  }

  predicate WaitsAs(j: Job, h: nat, w: Orphan)
    requires h in j.env.mempool
  {
    w.tx == j.env.mempool[h] && w.tx.id == h && w.priority == j.priority(w.tx) && w.feePerKb == j.feePerKb(w.tx)
  }

  /** Freed by the entries `list` of the dependers of `hash` alone. */
  function FreedBy(waiting: map<nat, Orphan>, hash: nat, list: seq<nat>): set<nat> {
    set h | h in list && h in waiting && waiting[h].dependsOn == {hash}
  }

  /** `waiting'` is `waiting` after the entries `list` stopped waiting for `hash`. */
  predicate Relaxed(waiting': map<nat, Orphan>, waiting: map<nat, Orphan>, hash: nat, list: seq<nat>) {
    && waiting'.Keys == waiting.Keys
    && forall h :: h in waiting ==>
      waiting'[h] == if h in list then waiting[h].(dependsOn := waiting[h].dependsOn - {hash}) else waiting[h]
  }

  /** One entry of the list: either it goes to the queue now, or its turn is not here or long past. */
  method ReleaseOne(j: Job, hash: nat, h: nat, waiting: map<nat, Orphan>, queue: seq<Entry>)
    returns (waiting': map<nat, Orphan>, queue': seq<Entry>)
    requires h in waiting && WaitingOk(j, waiting) && QueueOk(j, queue)
    requires waiting[h].dependsOn == {hash} ==> h !in QueueIds(queue)
    ensures waiting' == waiting[h := waiting[h].(dependsOn := waiting[h].dependsOn - {hash})]
    ensures QueueOk(j, queue')
    ensures QueueIds(queue') == QueueIds(queue) + if waiting[h].dependsOn == {hash} then {h} else {}
  {
    waiting', queue' := waiting, queue;
    var w := waiting[h];
    if w.dependsOn != {} {
      w := w.(dependsOn := w.dependsOn - {hash});
      waiting' := waiting[h := w];
      if w.dependsOn == {} {
        assert waiting[h].dependsOn == {hash};
        QueueIdsAppend(queue, Entry(w.priority, w.feePerKb, w.tx));
        queue' := queue + [Entry(w.priority, w.feePerKb, w.tx)];
      }
    } else {
      assert w.(dependsOn := w.dependsOn - {hash}) == w;
      assert waiting[h := w] == waiting;
    }
  }

  lemma RelaxedStep(waiting: map<nat, Orphan>, waiting': map<nat, Orphan>, hash: nat, list: seq<nat>, k: nat)
    requires k < |list| && list[k] in waiting && Relaxed(waiting', waiting, hash, list[..k])
    ensures var w := waiting'[list[k]];
      Relaxed(waiting'[list[k] := w.(dependsOn := w.dependsOn - {hash})], waiting, hash, list[..k + 1])
    ensures FreedBy(waiting, hash, list[..k + 1])
      == FreedBy(waiting, hash, list[..k]) + if waiting'[list[k]].dependsOn == {hash} then {list[k]} else {}
    ensures waiting'[list[k]].dependsOn == {hash} ==> list[k] !in FreedBy(waiting, hash, list[..k])
  {
    var h, w := list[k], waiting'[list[k]];
    assert list[..k + 1] == list[..k] + [h];
    assert w.(dependsOn := w.dependsOn - {hash}).dependsOn == waiting[h].dependsOn - {hash};
    assert h in list[..k] ==> hash !in w.dependsOn;
  }

  /** Everything that depends on `hash` stops waiting for it; what waited for nothing else is queued. */
  method Release(j: Job, hash: nat, waiting: map<nat, Orphan>, dependers: map<nat, seq<nat>>, queue: seq<Entry>)
    returns (waiting': map<nat, Orphan>, queue': seq<Entry>)
    requires WaitingOk(j, waiting) && QueueOk(j, queue)
    requires forall i :: 0 <= i < |ListedUnder(dependers, hash)| ==> ListedUnder(dependers, hash)[i] in waiting
    requires forall h :: h in waiting && hash in waiting[h].dependsOn ==> h in ListedUnder(dependers, hash)
    requires QueueIds(queue) !! Freed(waiting, hash)
    ensures waiting' == Without(waiting, hash)
    ensures QueueOk(j, queue') && QueueIds(queue') == QueueIds(queue) + Freed(waiting, hash)
  {
    hide QueueOk, QueueIds;
    waiting', queue' := waiting, queue;
    var list := ListedUnder(dependers, hash);
    for k := 0 to |list|
      invariant Relaxed(waiting', waiting, hash, list[..k])
      invariant WaitingOk(j, waiting') && QueueOk(j, queue')
      invariant QueueIds(queue') == QueueIds(queue) + FreedBy(waiting, hash, list[..k])
    {
      RelaxedStep(waiting, waiting', hash, list, k);
      assert waiting'[list[k]].dependsOn == {hash} ==> list[k] in Freed(waiting, hash);
      waiting', queue' := ReleaseOne(j, hash, list[k], waiting', queue');
    }
    assert list[..|list|] == list;
    assert FreedBy(waiting, hash, list) == Freed(waiting, hash);
    forall h | h in waiting
      ensures waiting'[h] == Without(waiting, hash)[h]
    {
      if h !in list {
        assert waiting[h].dependsOn - {hash} == waiting[h].dependsOn;
      }
    }
  }

  // ---------------------------------------------------------------- the template

  /** The trial index after the transactions `vtx`: each is stored "in the memory pool". */
  function TrialIndex(db: Index, vtx: seq<Tx>): Index {
    if vtx == [] then db else ApplyTx(TrialIndex(db, vtx[..|vtx| - 1]), vtx[|vtx| - 1], MEMPOOL_POS)
  }

  /** `tx` finds all its inputs in `v` and may spend them. */
  predicate Spends(v: Index, tx: Tx, env: Env) {
    InputsAvailable(tx, v, map[], env, true) && InputsConnect(tx, InputsOf(tx, v, env), env)
  }

  predicate TrialConnects(db: Index, vtx: seq<Tx>, env: Env) {
    vtx == [] ||
    (TrialConnects(db, vtx[..|vtx| - 1], env) && Spends(TrialIndex(db, vtx[..|vtx| - 1]), vtx[|vtx| - 1], env))
  }

  function TrialSigOps(vtx: seq<Tx>, env: Env): nat {
    if vtx == [] then 0
    else TrialSigOps(vtx[..|vtx| - 1], env) + vtx[|vtx| - 1].sigOps + env.p2shSigOps(vtx[|vtx| - 1])
  }

  /** What the transactions pay: inputs minus outputs, summed. */
  function TrialFees(db: Index, vtx: seq<Tx>, env: Env): int {
    if vtx == [] then 0
    else
      var init, tx := vtx[..|vtx| - 1], vtx[|vtx| - 1];
      TrialFees(db, init, env) + ValueIn(tx, TrialIndex(db, init), env) - SumOut(tx.vout)
  }

  /** The block being filled: transactions behind the coinbase, trial changes and running totals. */
  datatype Template = Template(vtx: seq<Tx>, pool: Index, size: nat, sigOps: nat, fees: int)

  ghost predicate TemplateOk(t: Template, db: Index, env: Env) {
    && View(db, t.pool) == TrialIndex(db, t.vtx)
    && TrialConnects(db, t.vtx, env)
    && t.size == 1000 + TotalSize(t.vtx)
    && t.sigOps == 100 + TrialSigOps(t.vtx, env)
    && t.fees == TrialFees(db, t.vtx, env)
  }

  /** The limits CreateNewBlock checks before it touches the index. */
  predicate Admissible(e: Entry, size: nat, sigOps: nat, byFee: bool, p: Policy) {
    && size + e.tx.size < p.MaxSize()
    && sigOps + e.tx.sigOps < MAX_BLOCK_SIGOPS
    && e.tx.time <= p.adjustedTime && (p.proofOfStake ==> e.tx.time <= p.coinbaseTime)
    && !(byFee && e.feePerKb < p.minTxFee as real && size + e.tx.size >= p.MinSize())
  }

  /** The transaction of `e` is taken behind the transactions `vtx`. */
  predicate Accepts(j: Job, vtx: seq<Tx>, e: Entry, byFee: bool) {
    && Admissible(e, 1000 + TotalSize(vtx), 100 + TrialSigOps(vtx, j.env), byFee, j.policy)
    && 100 + TrialSigOps(vtx, j.env) + e.tx.sigOps + j.env.p2shSigOps(e.tx) < MAX_BLOCK_SIGOPS
    && Spends(TrialIndex(j.db, vtx), e.tx, j.env)
  }

  /** Fetch and connect one transaction on a copy of the trial changes. */
  method TrySpend(j: Job, tx: Tx, t: Template) returns (ok: bool, pool: Index, fee: int)
    requires !tx.IsCoinBase() && OutputsInRange(tx.vout)
    requires View(j.db, t.pool) == TrialIndex(j.db, t.vtx)
    ensures ok <==> Spends(TrialIndex(j.db, t.vtx), tx, j.env) &&
                    t.sigOps + tx.sigOps + j.env.p2shSigOps(tx) < MAX_BLOCK_SIGOPS
    ensures ok ==> View(j.db, pool) == ApplyTx(TrialIndex(j.db, t.vtx), tx, MEMPOOL_POS)
    ensures ok ==> fee == ValueIn(tx, TrialIndex(j.db, t.vtx), j.env) - SumOut(tx.vout)
  {
    hide InputsAvailable, Fetched, InputsConnect, PoolMarked, ApplyTx, OutputsInRange;
    pool, fee := t.pool, 0;
    var inputs, fInvalid;
    ok, inputs, fInvalid := FetchInputs(tx, j.db, t.pool, j.env, false, true);
    LocateInView(tx, j.db, t.pool, j.env);
    if !ok {
      return;
    }
    FetchedIsInputsOf(tx, inputs, TrialIndex(j.db, t.vtx), j.env);
    var valueIn := GetValueIn(tx, inputs);
    var valueOut := GetValueOut(tx);
    fee := valueIn - valueOut.value;
    if t.sigOps + tx.sigOps + j.env.p2shSigOps(tx) >= MAX_BLOCK_SIGOPS {
      return false, pool, fee;
    }
    ok, pool := ConnectInputs(tx, inputs, t.pool, MEMPOOL_POS, j.env, false, true);
    if ok {
      ConnectActsOnView(tx, inputs, j.db, t.pool, pool, MEMPOOL_POS, j.env);
      pool := pool[tx.id := FreshEntry(tx, MEMPOOL_POS)];
    }
  }

  lemma TemplateStep(t: Template, tx: Tx, pool: Index, fee: int, db: Index, env: Env)
    requires TemplateOk(t, db, env) && Spends(TrialIndex(db, t.vtx), tx, env)
    requires View(db, pool) == ApplyTx(TrialIndex(db, t.vtx), tx, MEMPOOL_POS)
    requires fee == ValueIn(tx, TrialIndex(db, t.vtx), env) - SumOut(tx.vout)
    ensures TemplateOk(Template(t.vtx + [tx], pool, t.size + tx.size, t.sigOps + tx.sigOps + env.p2shSigOps(tx),
                                t.fees + fee), db, env)
  {
    hide Spends, ApplyTx, View, ValueIn, SumOut;
    var vtx := t.vtx + [tx];
    assert vtx[..|vtx| - 1] == t.vtx && vtx[|vtx| - 1] == tx;
  }

  /** When the queue is to be sorted by fee from now on. */
  predicate SwitchesToFee(e: Entry, size: nat, p: Policy) {
    size + e.tx.size >= p.PrioritySize() || e.priority < HIGH_PRIORITY
  }

  /** The body of the main loop for one entry taken off the queue. */
  method TryAdd(j: Job, e: Entry, t: Template, byFee: bool) returns (added: bool, t': Template, byFee': bool)
    requires !e.tx.IsCoinBase() && OutputsInRange(e.tx.vout) && TemplateOk(t, j.db, j.env)
    ensures added <==> Accepts(j, t.vtx, e, byFee)
    ensures !added ==> t' == t
    ensures added ==> t'.vtx == t.vtx + [e.tx] && TemplateOk(t', j.db, j.env)
    ensures byFee' <==> byFee || (Admissible(e, t.size, t.sigOps, byFee, j.policy) && SwitchesToFee(e, t.size, j.policy))
  {
    hide Spends, View, OutputsInRange, TrialIndex, TrialConnects, TrialSigOps, TrialFees, TotalSize;
    t', byFee' := t, byFee;
    if !Admissible(e, t.size, t.sigOps, byFee, j.policy) {
      return false, t', byFee';
    }
    if !byFee && SwitchesToFee(e, t.size, j.policy) {
      byFee' := true;
    }
    var pool, fee;
    added, pool, fee := TrySpend(j, e.tx, t);
    if added {
      TemplateStep(t, e.tx, pool, fee, j.db, j.env);
      t' := Template(t.vtx + [e.tx], pool, t.size + e.tx.size,
                     t.sigOps + e.tx.sigOps + j.env.p2shSigOps(e.tx), t.fees + fee);
    }
  }

  // ---------------------------------------------------------------- the main loop

  /**
   Every eligible transaction is queued or was taken off the queue exactly when all it depends on is
   included; the others wait for precisely what is not included yet.
   */
  ghost predicate Tracks(j: Job, queue: seq<Entry>, waiting: map<nat, Orphan>, done: set<nat>, included: set<nat>) {
    && QueueOk(j, queue)
    && QueueIds(queue) !! done
    && included <= done
    && (forall h :: h in QueueIds(queue) || h in done <==> Eligible(j, h) && DependsOn(j, j.env.mempool[h]) <= included)
    && WaitingOk(j, waiting)
    && (forall h :: h in waiting <==> Eligible(j, h) && DependsOn(j, j.env.mempool[h]) != {})
    && (forall h :: h in waiting ==> waiting[h].dependsOn == DependsOn(j, j.env.mempool[h]) - included)
  }

  /** Every eligible transaction is registered with all it depends on, and nothing else is registered. */
  ghost predicate Listed(j: Job, dependers: map<nat, seq<nat>>, waiting: map<nat, Orphan>) {
    && (forall h, p :: h in waiting && p in DependsOn(j, waiting[h].tx) ==> h in ListedUnder(dependers, p))
    && (forall p :: p in dependers ==> forall i :: 0 <= i < |dependers[p]| ==> dependers[p][i] in waiting)
  }

  lemma CollectedTracks(j: Job, queue: seq<Entry>, waiting: map<nat, Orphan>, dependers: map<nat, seq<nat>>)
    requires PoolOk(j) && Collected(j, j.env.mempool.Keys, queue, waiting, dependers)
    ensures Tracks(j, queue, waiting, {}, {}) && Listed(j, dependers, waiting)
  {
    hide DependsOn, QueueOk, QueueIds, NoneDangling;
    forall h, p | h in waiting && p in DependsOn(j, waiting[h].tx)
      ensures h in ListedUnder(dependers, p)
    {
      assert Lists(dependers, p, h);
    }
  }

  lemma PopTracks(j: Job, queue: seq<Entry>, waiting: map<nat, Orphan>, done: set<nat>, included: set<nat>, at: nat)
    requires Tracks(j, queue, waiting, done, included) && at < |queue|
    ensures Tracks(j, queue[..at] + queue[at + 1..], waiting, done + {queue[at].tx.id}, included)
  {
    hide DependsOn, QueueOk, Eligible, WaitingOk;
    PopKeepsOk(j, queue, at);
  }

  /** The entry taken next is an eligible pool transaction that was not taken before. */
  lemma PopFacts(j: Job, queue: seq<Entry>, waiting: map<nat, Orphan>, done: set<nat>, included: set<nat>, at: nat)
    requires PoolOk(j) && Tracks(j, queue, waiting, done, included) && at < |queue|
    ensures var h := queue[at].tx.id;
      && h in j.env.mempool && queue[at] == EntryOf(j, j.env.mempool[h]) && Eligible(j, h)
      && h !in done && h !in included
    ensures !queue[at].tx.IsCoinBase() && OutputsInRange(queue[at].tx.vout)
  {
    hide DependsOn, NoneDangling, OutputsInRange, Missing;
    assert queue[at].tx.id in QueueIds(queue);
  }

  /** Who is freed by including `hash`: exactly those that now have all they depend on. */
  lemma FreedMeans(j: Job, queue: seq<Entry>, waiting: map<nat, Orphan>, done: set<nat>, included: set<nat>, hash: nat)
    requires Tracks(j, queue, waiting, done, included) && hash !in included
    ensures forall h :: h in Freed(waiting, hash) <==>
      (h in waiting &&
       DependsOn(j, j.env.mempool[h]) <= included + {hash} && !(DependsOn(j, j.env.mempool[h]) <= included))
    ensures QueueIds(queue) !! Freed(waiting, hash) && done !! Freed(waiting, hash)
  {
    hide DependsOn, QueueOk, QueueIds, Eligible, WaitsAs;
    forall h | h in waiting
      ensures waiting[h].dependsOn == {hash} <==>
        DependsOn(j, j.env.mempool[h]) <= included + {hash} && !(DependsOn(j, j.env.mempool[h]) <= included)
    {
      var deps := DependsOn(j, j.env.mempool[h]);
      assert waiting[h].dependsOn == deps - included;
    }
  }

  lemma WithoutWaits(j: Job, waiting: map<nat, Orphan>, included: set<nat>, hash: nat)
    requires WaitingOk(j, waiting)
    requires forall h :: h in waiting ==> waiting[h].dependsOn == DependsOn(j, j.env.mempool[h]) - included
    ensures WaitingOk(j, Without(waiting, hash))
    ensures forall h :: h in waiting ==>
      Without(waiting, hash)[h].dependsOn == DependsOn(j, j.env.mempool[h]) - (included + {hash})
  {
    hide DependsOn;
  }

  lemma IncludeTracks(j: Job, queue: seq<Entry>, waiting: map<nat, Orphan>, done: set<nat>, included: set<nat>,
                      hash: nat, queue': seq<Entry>)
    requires Tracks(j, queue, waiting, done, included) && hash in done && hash !in included
    requires QueueOk(j, queue') && QueueIds(queue') == QueueIds(queue) + Freed(waiting, hash)
    ensures Tracks(j, queue', Without(waiting, hash), done, included + {hash})
  {
    hide DependsOn, QueueOk, QueueIds, Wanted, Missing, WaitingOk, Freed;
    FreedMeans(j, queue, waiting, done, included, hash);
    WithoutWaits(j, waiting, included, hash);
    forall h
      ensures h in QueueIds(queue') || h in done <==>
        Eligible(j, h) && DependsOn(j, j.env.mempool[h]) <= included + {hash}
    {
      if Eligible(j, h) && h !in waiting {
        assert DependsOn(j, j.env.mempool[h]) == {};
      }
    }
  }

  /** The registrations serve Release, and outlive it. */
  lemma ListedFacts(j: Job, dependers: map<nat, seq<nat>>, queue: seq<Entry>, waiting: map<nat, Orphan>,
                    done: set<nat>, included: set<nat>, hash: nat)
    requires Listed(j, dependers, waiting) && Tracks(j, queue, waiting, done, included)
    ensures WaitingOk(j, waiting) && QueueOk(j, queue)
    ensures forall i :: 0 <= i < |ListedUnder(dependers, hash)| ==> ListedUnder(dependers, hash)[i] in waiting
    ensures forall h :: h in waiting && hash in waiting[h].dependsOn ==> h in ListedUnder(dependers, hash)
    ensures Listed(j, dependers, Without(waiting, hash))
  {
    hide DependsOn, QueueOk, QueueIds, Eligible;
  }

  lemma StartOk(j: Job)
    ensures TemplateOk(Template([], map[], 1000, 100, 0), j.db, j.env)
    ensures Selected(j, []) && TxIds([]) == {}
    ensures Offered(j, []) == Turn([], j.policy.PrioritySize() == 0) && InRankOrder(j, [])
  {
    assert View(j.db, map[]) == j.db;
  }

  predicate FromPool(j: Job, vtx: seq<Tx>) {
    forall i :: 0 <= i < |vtx| ==> vtx[i].id in j.env.mempool && vtx[i] == j.env.mempool[vtx[i].id]
  }

  lemma TxIdsAppend(vtx: seq<Tx>, tx: Tx)
    ensures TxIds(vtx + [tx]) == TxIds(vtx) + {tx.id}
  {
    forall h | h in TxIds(vtx) + {tx.id}
      ensures h in TxIds(vtx + [tx])
    {
      if h == tx.id {
        assert (vtx + [tx])[|vtx|] == tx;
      } else {
        var i :| 0 <= i < |vtx| && vtx[i].id == h;
        assert (vtx + [tx])[i] == vtx[i];
      }
    }
  }

  // ---------------------------------------------------------------- turn by turn

  /** The template and the sort mode at some point of the main loop. */
  datatype Turn = Turn(vtx: seq<Tx>, byFee: bool)

  /** What offering one entry makes of them. */
  function Offer(j: Job, r: Turn, e: Entry): Turn {
    var size, sigOps := 1000 + TotalSize(r.vtx), 100 + TrialSigOps(r.vtx, j.env);
    Turn(if Accepts(j, r.vtx, e, r.byFee) then r.vtx + [e.tx] else r.vtx,
         r.byFee || (Admissible(e, size, sigOps, r.byFee, j.policy) && SwitchesToFee(e, size, j.policy)))
  }

  predicate AllPooled(j: Job, taken: seq<nat>) {
    forall i :: 0 <= i < |taken| ==> taken[i] in j.env.mempool
  }

  /** Offering the pool transactions `taken` one after the other. */
  function Offered(j: Job, taken: seq<nat>): Turn
    requires AllPooled(j, taken)
  {
    if taken == [] then Turn([], j.policy.PrioritySize() == 0)
    else Offer(j, Offered(j, taken[..|taken| - 1]), EntryOf(j, j.env.mempool[taken[|taken| - 1]]))
  }

  /**
   When the turn of `taken[i]` came, no other transaction that was free to go outranked it: eligible, not
   taken before, and with all it depends on already in the template. In fee mode the fee rate counts and then the
   priority, in priority mode the priority and then the fee rate.
   */
  ghost predicate BestInTurn(j: Job, taken: seq<nat>, i: nat)
    requires AllPooled(j, taken) && i < |taken|
  {
    var r := Offered(j, taken[..i]);
    forall g :: Eligible(j, g) && g !in taken[..i] && DependsOn(j, j.env.mempool[g]) <= TxIds(r.vtx) ==>
      var mine, other := j.env.mempool[taken[i]], j.env.mempool[g];
      if r.byFee then
        j.feePerKb(other) < j.feePerKb(mine) ||
        (j.feePerKb(other) == j.feePerKb(mine) && j.priority(other) <= j.priority(mine))
      else
        j.priority(other) < j.priority(mine) ||
        (j.priority(other) == j.priority(mine) && j.feePerKb(other) <= j.feePerKb(mine))
  }

  ghost predicate InRankOrder(j: Job, taken: seq<nat>)
    requires AllPooled(j, taken)
  {
    forall i: nat :: i < |taken| ==> BestInTurn(j, taken, i)
  }

  lemma OfferedNext(j: Job, taken: seq<nat>, h: nat)
    requires AllPooled(j, taken) && h in j.env.mempool
    ensures AllPooled(j, taken + [h])
    ensures Offered(j, taken + [h]) == Offer(j, Offered(j, taken), EntryOf(j, j.env.mempool[h]))
  {
    assert (taken + [h])[..|taken|] == taken;
  }

  lemma RankOrderNext(j: Job, taken: seq<nat>, h: nat)
    requires AllPooled(j, taken) && h in j.env.mempool && InRankOrder(j, taken)
    requires var r := Offered(j, taken);
      forall g :: Eligible(j, g) && g !in taken && DependsOn(j, j.env.mempool[g]) <= TxIds(r.vtx) ==>
        !Below(EntryOf(j, j.env.mempool[h]), EntryOf(j, j.env.mempool[g]), r.byFee)
    ensures AllPooled(j, taken + [h]) && InRankOrder(j, taken + [h])
  {
    hide Eligible, DependsOn, Offered, TxIds;
    var next := taken + [h];
    forall i: nat | i < |next|
      ensures BestInTurn(j, next, i)
    {
      if i < |taken| {
        assert next[..i] == taken[..i] && BestInTurn(j, taken, i);
      } else {
        assert next[..i] == taken;
      }
    }
  }

  /** The entry just removed outranks every other that is free to go. */
  lemma PopOutranks(j: Job, queue: seq<Entry>, waiting: map<nat, Orphan>, done: set<nat>, included: set<nat>, at: nat,
                    byFee: bool)
    requires Tracks(j, queue, waiting, done, included) && at < |queue|
    requires forall i :: 0 <= i < |queue| ==> !Below(queue[at], queue[i], byFee)
    ensures forall g :: Eligible(j, g) && g !in done && DependsOn(j, j.env.mempool[g]) <= included ==>
      !Below(queue[at], EntryOf(j, j.env.mempool[g]), byFee)
  {
    hide DependsOn, Below, Wanted, Missing, WaitingOk;
    forall g | Eligible(j, g) && g !in done && DependsOn(j, j.env.mempool[g]) <= included
      ensures !Below(queue[at], EntryOf(j, j.env.mempool[g]), byFee)
    {
      assert g in QueueIds(queue);
      var i :| 0 <= i < |queue| && queue[i].tx.id == g;
    }
  }

  /** Nothing is in the template that was not offered. */
  lemma {:induction false} OfferedIds(j: Job, taken: seq<nat>)
    requires PoolOk(j) && AllPooled(j, taken)
    ensures forall h :: h in TxIds(Offered(j, taken).vtx) ==> h in taken
  {
    if taken != [] {
      var init, last := taken[..|taken| - 1], taken[|taken| - 1];
      OfferedIds(j, init);
      TxIdsAppend(Offered(j, init).vtx, j.env.mempool[last]);
    }
  }

  /** What is offered later comes behind. */
  lemma {:induction false} OfferedPrefix(j: Job, taken: seq<nat>, i: nat)
    requires AllPooled(j, taken) && i <= |taken|
    ensures Offered(j, taken[..i]).vtx <= Offered(j, taken).vtx
  {
    hide Accepts;
    if i < |taken| {
      assert taken[..|taken| - 1][..i] == taken[..i];
      OfferedPrefix(j, taken[..|taken| - 1], i);
    } else {
      assert taken[..i] == taken;
    }
  }

  /** An id that is not offered any more keeps its place inside or outside the template. */
  lemma {:induction false} Settled(j: Job, taken: seq<nat>, i: nat, h: nat)
    requires PoolOk(j) && AllPooled(j, taken) && i <= |taken| && forall k :: i <= k < |taken| ==> taken[k] != h
    ensures h in TxIds(Offered(j, taken).vtx) <==> h in TxIds(Offered(j, taken[..i]).vtx)
  {
    hide Accepts, TxIds;
    if i < |taken| {
      var init, last := taken[..|taken| - 1], taken[|taken| - 1];
      assert init[..i] == taken[..i];
      Settled(j, init, i, h);
      TxIdsAppend(Offered(j, init).vtx, j.env.mempool[last]);
    } else {
      assert taken[..i] == taken;
    }
  }

  /**
   Turn `i` decides about `taken[i]`, for good: with `r` the template and mode reached then, it is in the final
   template if and only if it was acceptable behind `r.vtx`, which is how the final template starts.
   */
  lemma TurnDecides(j: Job, taken: seq<nat>, i: nat)
    requires PoolOk(j) && AllPooled(j, taken) && NoDuplicates(taken) && i < |taken|
    ensures var r, vtx := Offered(j, taken[..i]), Offered(j, taken).vtx;
      && r.vtx <= vtx
      && (forall h :: h in TxIds(r.vtx) <==> h in taken[..i] && h in TxIds(vtx))
      && (taken[i] in TxIds(vtx) <==> Accepts(j, r.vtx, EntryOf(j, j.env.mempool[taken[i]]), r.byFee))
  {
    hide Accepts, TxIds;
    var h, r, vtx := taken[i], Offered(j, taken[..i]), Offered(j, taken).vtx;
    OfferedPrefix(j, taken, i);
    OfferedIds(j, taken[..i]);
    forall g | g in taken[..i]
      ensures g in TxIds(vtx) <==> g in TxIds(r.vtx)
    {
      Settled(j, taken, i, g);
    }
    Settled(j, taken, i + 1, h);
    assert taken[..i + 1][..i] == taken[..i];
    TxIdsAppend(r.vtx, j.env.mempool[h]);
  }

  /**
   The same in numbers, with `size` what the block would come to: the transaction is taken if and only if it stays below
   the limits on size and signature operations, is not from the future, pays enough or the block is still
   small, and spends what is there. The fee mode is entered at the priority size or at the first low priority.
   */
  lemma TurnInNumbers(j: Job, taken: seq<nat>, i: nat)
    requires PoolOk(j) && AllPooled(j, taken) && NoDuplicates(taken) && i < |taken|
    ensures var r, r', vtx, tx, p := Offered(j, taken[..i]), Offered(j, taken[..i + 1]), Offered(j, taken).vtx,
                                     j.env.mempool[taken[i]], j.policy;
      var size, sigOps := 1000 + TotalSize(r.vtx) + tx.size, 100 + TrialSigOps(r.vtx, j.env) + tx.sigOps;
      var max := if p.blockMaxSize < 1000 then 1000 else if p.blockMaxSize > 19_999_000 then 19_999_000 else p.blockMaxSize;
      var admitted := size < max && sigOps < 400_000 && tx.time <= p.adjustedTime && (p.proofOfStake ==> tx.time <= p.coinbaseTime)
        && !(r.byFee && j.feePerKb(tx) < p.minTxFee as real && (size >= p.blockMinSize || size >= max));
      && (taken[i] in TxIds(vtx) <==>
            admitted && sigOps + j.env.p2shSigOps(tx) < 400_000 && Spends(TrialIndex(j.db, r.vtx), tx, j.env))
      && (r'.byFee <==> r.byFee || (admitted && (size >= p.blockPrioritySize || size >= max || j.priority(tx) < 57_600_000.0)))
  {
    hide Spends, TxIds, TotalSize, TrialSigOps, TrialIndex;
    TurnDecides(j, taken, i);
    assert taken[..i + 1][..i] == taken[..i];
  }

  /** What CreateNewBlock promises of the transactions it selects. */
  ghost predicate Selected(j: Job, vtx: seq<Tx>) {
    && FromPool(j, vtx)
    && UniqueIds(vtx)
    && (forall h :: h in TxIds(vtx) ==> Eligible(j, h))
    && (forall i :: 0 <= i < |vtx| ==>
          vtx[i].time <= j.policy.adjustedTime && (j.policy.proofOfStake ==> vtx[i].time <= j.policy.coinbaseTime))
    && 1000 + TotalSize(vtx) <= j.policy.MaxSize()
    && 100 + TrialSigOps(vtx, j.env) < MAX_BLOCK_SIGOPS
  }

  lemma SelectedStep(j: Job, vtx: seq<Tx>, e: Entry, byFee: bool)
    requires Selected(j, vtx) && Accepts(j, vtx, e, byFee) && Eligible(j, e.tx.id) && e.tx.id !in TxIds(vtx)
    requires e.tx == j.env.mempool[e.tx.id]
    ensures Selected(j, vtx + [e.tx])
  {
    hide Spends, Wanted, Missing;
    assert (vtx + [e.tx])[..|vtx|] == vtx;
    TxIdsAppend(vtx, e.tx);
    assert forall i :: 0 <= i < |vtx| ==> vtx[i].id in TxIds(vtx);
  }

  lemma EndFacts(j: Job, waiting: map<nat, Orphan>, done: set<nat>, vtx: seq<Tx>)
    requires Tracks(j, [], waiting, done, TxIds(vtx))
    ensures forall h :: h in done <==> Eligible(j, h) && DependsOn(j, j.env.mempool[h]) <= TxIds(vtx)
  {
    hide DependsOn, Wanted, Missing, TxIds;
    assert QueueIds([]) == {};
  }

  /**
   The collection loop of CreateNewBlock. `taken` lists the queue's entries in the order they left it: no
   transaction leaves it twice, those that do are exactly the eligible ones whose dependencies were all
   included, each was of highest rank when its turn came, and the template is what offering them in
   this order makes (see TurnDecides).
   */
  method Assemble(j: Job) returns (t: Template, ghost taken: seq<nat>)
    requires PoolOk(j)
    ensures TemplateOk(t, j.db, j.env) && Selected(j, t.vtx)
    ensures NoDuplicates(taken) && AllPooled(j, taken)
    ensures forall h :: h in taken <==> Eligible(j, h) && DependsOn(j, j.env.mempool[h]) <= TxIds(t.vtx)
    ensures t.vtx == Offered(j, taken).vtx && InRankOrder(j, taken)
  {
    hide Eligible, TemplateOk, DependsOn, Listed, Tracks, Selected, TxIds, Accepts, Offered, InRankOrder, Below;
    var queue, waiting, dependers := Collect(j);
    CollectedTracks(j, queue, waiting, dependers);
    t, taken := Template([], map[], 1000, 100, 0), [];
    ghost var done: set<nat> := {};
    StartOk(j);
    var byFee := j.policy.PrioritySize() == 0;
    while queue != []
      invariant Tracks(j, queue, waiting, done, TxIds(t.vtx)) && Listed(j, dependers, waiting)
      invariant TemplateOk(t, j.db, j.env) && Selected(j, t.vtx)
      invariant NoDuplicates(taken) && done == set h | h in taken
      invariant AllPooled(j, taken) && Offered(j, taken) == Turn(t.vtx, byFee) && InRankOrder(j, taken)
      decreases j.env.mempool.Keys - done
    {
      var e, rest, at := PopBest(queue, byFee);
      PopFacts(j, queue, waiting, done, TxIds(t.vtx), at);
      PopTracks(j, queue, waiting, done, TxIds(t.vtx), at);
      PopOutranks(j, queue, waiting, done, TxIds(t.vtx), at, byFee);
      RankOrderNext(j, taken, e.tx.id);
      OfferedNext(j, taken, e.tx.id);
      TemplateTotals(j, t);
      ghost var vtx := t.vtx;
      ghost var sortedBy := byFee;
      done, taken := done + {e.tx.id}, taken + [e.tx.id];
      queue := rest;
      var added;
      added, t, byFee := TryAdd(j, e, t, byFee);
      if added {
        SelectedStep(j, vtx, e, sortedBy);
        TxIdsAppend(vtx, e.tx);
        FreedMeans(j, queue, waiting, done, TxIds(vtx), e.tx.id);
        ListedFacts(j, dependers, queue, waiting, done, TxIds(vtx), e.tx.id);
        var waiting', queue' := Release(j, e.tx.id, waiting, dependers, queue);
        IncludeTracks(j, queue, waiting, done, TxIds(vtx), e.tx.id, queue');
        waiting, queue := waiting', queue';
      }
    }
    EndFacts(j, waiting, done, t.vtx);
  }

  lemma TemplateTotals(j: Job, t: Template)
    requires TemplateOk(t, j.db, j.env)
    ensures t.size == 1000 + TotalSize(t.vtx) && t.sigOps == 100 + TrialSigOps(t.vtx, j.env)
  {
  }
}
