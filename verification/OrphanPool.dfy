/**
 Orphan transactions and their index by missing parent: AddOrphanTx, EraseOrphanTx,
 LimitOrphanTxSize, and the loop that drains dependants once a parent is accepted.
 */
module OrphanPool {
  import opened Sequences
  import opened Ledger

  const MAX_ORPHAN_SIZE := 5000

  predicate Spends(tx: Tx, p: nat) {
    p in PrevHashes(tx.vin)
  }

  predicate Lists(byPrev: map<nat, set<nat>>, p: nat, h: nat) {
    p in byPrev && h in byPrev[p]
  }

  /** `h` is listed under `p` exactly when orphan `h` has an input from `p`; no list is empty. */
  ghost predicate Consistent(orphans: map<nat, Tx>, byPrev: map<nat, set<nat>>) {
    && (forall h :: h in orphans ==> orphans[h].id == h)
    && (forall p, h :: Lists(byPrev, p, h) <==> h in orphans && Spends(orphans[h], p))
    && (forall p :: p in byPrev ==> byPrev[p] != {})
  }

  function ToSet(s: seq<nat>): set<nat> {
    set x | x in s
  }

  /** `now` is `was` with `hash` listed under the parents `ps`. */
  ghost predicate With(now: map<nat, set<nat>>, was: map<nat, set<nat>>, hash: nat, ps: set<nat>) {
    && (forall p, h :: Lists(now, p, h) <==> Lists(was, p, h) || (h == hash && p in ps))
    && (forall p :: p in now ==> now[p] != {})
  }

  lemma ListStep(now: map<nat, set<nat>>, was: map<nat, set<nat>>, hash: nat, ps: set<nat>, p: nat)
    requires With(now, was, hash, ps)
    ensures With(now[p := (if p in now then now[p] else {}) + {hash}], was, hash, ps + {p})
  {
    var next := now[p := (if p in now then now[p] else {}) + {hash}];
    forall q, h
      ensures Lists(next, q, h) <==> Lists(now, q, h) || (h == hash && q == p)
    {
    }
  }

  /** `now` is `was` with `hash` unlisted under the parents `ps`. */
  ghost predicate Without(now: map<nat, set<nat>>, was: map<nat, set<nat>>, hash: nat, ps: set<nat>) {
    && (forall p, h :: Lists(now, p, h) <==> Lists(was, p, h) && !(h == hash && p in ps))
    && (forall p :: p in now ==> now[p] != {})
  }

  function Unlist(byPrev: map<nat, set<nat>>, hash: nat, p: nat): map<nat, set<nat>> {
    if p !in byPrev then byPrev
    else if byPrev[p] - {hash} == {} then byPrev - {p}
    else byPrev[p := byPrev[p] - {hash}]
  }

  lemma UnlistStep(now: map<nat, set<nat>>, was: map<nat, set<nat>>, hash: nat, ps: set<nat>, p: nat)
    requires Without(now, was, hash, ps)
    ensures Without(Unlist(now, hash, p), was, hash, ps + {p})
  {
    var next := Unlist(now, hash, p);
    forall q, h
      ensures Lists(next, q, h) <==> Lists(now, q, h) && !(h == hash && q == p)
    {
      if p in now && q == p && Lists(now, q, h) && h != hash {
        assert h in now[p] - {hash};
      }
    }
  }

  class Pool {
    var orphans: map<nat, Tx>
    var byPrev: map<nat, set<nat>>
    /** Ids of the transactions in the memory pool. */
    var mempool: set<nat>
    /** Log of the ids that the pool policy refused for good. */
    ghost var refused: seq<nat>

    ghost predicate Valid()
      reads this
    {
      Consistent(orphans, byPrev)
    }

    constructor ()
      ensures Valid() && orphans == map[] && mempool == {} && refused == []
    {
      orphans, byPrev, mempool, refused := map[], map[], {}, [];
    }

    /** AddOrphanTx: refuses known and oversized transactions, otherwise lists it under every parent. */
    method Add(tx: Tx) returns (added: bool)
      requires Valid()
      modifies this`orphans, this`byPrev
      ensures Valid()
      ensures added <==> tx.id !in old(orphans) && tx.size <= MAX_ORPHAN_SIZE
      ensures orphans == if added then old(orphans)[tx.id := tx] else old(orphans)
    {
      if tx.id in orphans || tx.size > MAX_ORPHAN_SIZE {
        return false;
      }
      ghost var was := byPrev;
      for i := 0 to |tx.vin|
        invariant With(byPrev, was, tx.id, PrevHashes(tx.vin[..i]))
        invariant orphans == old(orphans)
      {
        var p := tx.vin[i].hash;
        PrevHashesStep(tx.vin, i);
        ListStep(byPrev, was, tx.id, PrevHashes(tx.vin[..i]), p);
        byPrev := byPrev[p := (if p in byPrev then byPrev[p] else {}) + {tx.id}];
      }
      assert tx.vin[..|tx.vin|] == tx.vin;
      orphans := orphans[tx.id := tx];
      return true;
    }

    /** EraseOrphanTx: unlists the orphan under every parent and drops lists that become empty. */
    method Erase(hash: nat)
      requires Valid()
      modifies this`orphans, this`byPrev
      ensures Valid() && orphans == old(orphans) - {hash}
    {
      if hash !in orphans {
        return;
      }
      var tx := orphans[hash];
      ghost var was := byPrev;
      for i := 0 to |tx.vin|
        invariant Without(byPrev, was, hash, PrevHashes(tx.vin[..i]))
        invariant orphans == old(orphans)
      {
        var p := tx.vin[i].hash;
        assert PrevHashes(tx.vin[..i + 1]) == PrevHashes(tx.vin[..i]) + {p};
        UnlistStep(byPrev, was, hash, PrevHashes(tx.vin[..i]), p);
        byPrev := Unlist(byPrev, hash, p);
      }
      assert tx.vin[..|tx.vin|] == tx.vin;
      orphans := orphans - {hash};
    }

    /** LimitOrphanTxSize: evicts arbitrary orphans down to the limit and returns how many went. */
    method Limit(maxOrphans: nat) returns (evicted: nat)
      requires Valid()
      modifies this`orphans, this`byPrev
      ensures Valid()
      ensures evicted == if |old(orphans)| > maxOrphans then |old(orphans)| - maxOrphans else 0
      ensures |orphans| + evicted == |old(orphans)|
      ensures orphans.Keys <= old(orphans).Keys && forall h :: h in orphans ==> orphans[h] == old(orphans)[h]
    {
      evicted := 0;
      while |orphans| > maxOrphans
        invariant Valid() && |orphans| + evicted == |old(orphans)|
        invariant evicted == 0 || |orphans| >= maxOrphans
        invariant orphans.Keys <= old(orphans).Keys && forall h :: h in orphans ==> orphans[h] == old(orphans)[h]
        decreases |orphans|
      {
        var h :| h in orphans;
        ghost var before := orphans;
        Erase(h);
        assert before.Keys == orphans.Keys + {h};
        evicted := evicted + 1;
      }
    }

    /**
     AcceptToMemoryPool for an arbitrary pool policy: it may refuse anything, and refuses known ids. What it refuses
     for good, rather than for missing inputs, is logged.
     */
    method Accept(id: nat) returns (accepted: bool, missingInputs: bool)
      modifies this`mempool, this`refused
      ensures accepted ==> id !in old(mempool)
      ensures mempool == if accepted then old(mempool) + {id} else old(mempool)
      ensures refused == if accepted || missingInputs then old(refused) else old(refused) + [id]
    {
      accepted, missingInputs := *, *;
      if id in mempool {
        accepted := false;
      }
      if accepted {
        mempool := mempool + {id};
      } else if !missingInputs {
        refused := refused + [id];
      }
    }

    /** Offer every orphan that depends on `p`, once. */
    method OfferDependants(p: nat, work: seq<nat>, erase: seq<nat>, ghost offered: set<nat>, ghost since: nat)
      returns (work': seq<nat>, erase': seq<nat>, ghost offered': set<nat>)
      requires Valid() && NoDuplicates(work) && ToSet(work) <= mempool && since <= |refused|
      requires ToSet(erase) == ToSet(work) + Since(refused, since)
      modifies this`mempool, this`refused
      ensures work <= work' && since <= |refused| && Extends(refused, old(refused))
      ensures Grew(old(mempool), mempool, orphans.Keys, old(refused), refused, since, work, work', erase', offered')
      ensures offered' == offered + if p in byPrev then byPrev[p] else {}
    {
      hide ToSet, Consistent, Since;
      work', erase', offered' := work, erase, offered;
      if p !in byPrev {
        return;
      }
      var rest := byPrev[p];
      while rest != {}
        invariant rest <= byPrev[p] && since <= |refused| && Extends(refused, old(refused))
        invariant NoDuplicates(work') && work <= work'
        invariant forall i :: |work| <= i < |work'| ==> work'[i] in orphans
        invariant mempool == old(mempool) + (ToSet(work') - ToSet(work)) && ToSet(work') <= mempool
        invariant ToSet(erase') == ToSet(work') + Since(refused, since)
        invariant ToSet(work') <= ToSet(work) + offered' && Since(refused, since) <= Since(old(refused), since) + offered'
        invariant offered' + rest == offered + byPrev[p]
        decreases rest
      {
        var h :| h in rest;
        rest := rest - {h};
        offered' := offered' + {h};
        ListedIsOrphan(orphans, byPrev, p, h);
        ToSetAppend(work', h);
        ToSetAppend(erase', h);
        SinceAppend(refused, since, h);
        StaysDistinct(work', mempool, h);
        var accepted, missing := Accept(h);
        if accepted {
          work', erase' := work' + [h], erase' + [h];
        } else if !missing {
          erase' := erase' + [h];
        }
      }
    }

    /** The work list of the drain, until no accepted transaction is left to follow up. */
    method Follow(id: nat) returns (work: seq<nat>, erase: seq<nat>, ghost offered: set<nat>)
      requires Valid() && id in mempool
      modifies this`mempool, this`refused
      ensures |work| > 0 && work[0] == id && NoDuplicates(work) && Extends(refused, old(refused))
      ensures ToSet(erase) == ToSet(work) + Since(refused, |old(refused)|)
      ensures ToSet(work) <= {id} + offered && Since(refused, |old(refused)|) <= offered
      ensures forall i :: 1 <= i < |work| ==> work[i] in orphans
      ensures mempool == old(mempool) + ToSet(work)
      ensures offered == Dependants(byPrev, work, |work|)
    {
      hide Consistent, ToSet, Since, Dependants, Draining, NoDuplicates, Grew, Extends;
      work, erase, offered := [id], [id], {};
      ghost var was, since := mempool, |refused|;
      DrainStarts(was, orphans.Keys, refused, id);
      assert Extends(refused, old(refused)) by {
        ExtendsItself(refused);
      }
      DependantsOfNone(byPrev, work);
      var i := 0;
      while i < |work|
        invariant 0 <= i <= |work| <= |orphans| + 1 && since <= |refused| && Extends(refused, old(refused))
        invariant Draining(was, mempool, orphans.Keys, refused, since, id, work, erase, offered)
        invariant offered == Dependants(byPrev, work, i)
        decreases |orphans| + 1 - i
      {
        ghost var log := refused;
        work, erase, offered := FollowOne(i, id, work, erase, offered, was, since);
        ExtendsOn(old(refused), log, refused);
        i := i + 1;
      }
      DrainingMeans(was, mempool, orphans.Keys, refused, since, id, work, erase, offered);
    }

    /** Follow up one accepted transaction. */
    method FollowOne(i: nat, ghost id: nat, work: seq<nat>, erase: seq<nat>, ghost offered: set<nat>, ghost was: set<nat>,
                     ghost since: nat)
      returns (work': seq<nat>, erase': seq<nat>, ghost offered': set<nat>)
      requires Valid() && i < |work| && since <= |refused| && offered == Dependants(byPrev, work, i)
      requires Draining(was, mempool, orphans.Keys, refused, since, id, work, erase, offered)
      modifies this`mempool, this`refused
      ensures since <= |refused| && Extends(refused, old(refused)) && i < |work'| <= |orphans| + 1
      ensures Draining(was, mempool, orphans.Keys, refused, since, id, work', erase', offered')
      ensures offered' == Dependants(byPrev, work', i + 1)
    {
      hide Consistent, ToSet, Since, Dependants, Draining, NoDuplicates, Grew, Extends;
      ghost var log, pool := refused, mempool;
      DrainingMeans(was, mempool, orphans.Keys, refused, since, id, work, erase, offered);
      work', erase', offered' := OfferDependants(work[i], work, erase, offered, since);
      DrainContinues(was, pool, mempool, orphans.Keys, log, refused, since, id, work, erase, offered, work', erase', offered');
      DependantsStay(byPrev, work, work', i);
      DependantsNext(byPrev, work', i);
    }

    /**
     The drain in the "tx" message handler: starting from an accepted transaction, every orphan that
     depends on an accepted one is offered to the pool; the accepted ones continue the drain. It
     terminates and accepts no orphan twice, whatever the pool policy is. Exactly the accepted orphans and
     those refused for good leave the orphan pool; what still misses an input stays.
     */
    method Drain(id: nat) returns (work: seq<nat>, ghost offered: set<nat>)
      requires Valid() && id in mempool
      modifies this
      ensures Valid() && |work| > 0 && work[0] == id && NoDuplicates(work) && Extends(refused, old(refused))
      ensures forall i :: 1 <= i < |work| ==> work[i] in old(orphans)
      ensures mempool == old(mempool) + ToSet(work)
      ensures offered == Dependants(old(byPrev), work, |work|)
      ensures forall h :: h in offered <==> exists k :: 0 <= k < |work| && Lists(old(byPrev), work[k], h)
      ensures ToSet(work) <= {id} + offered && Since(refused, |old(refused)|) <= offered
      ensures orphans.Keys == old(orphans).Keys - ToSet(work) - Since(refused, |old(refused)|)
      ensures forall h :: h in orphans ==> orphans[h] == old(orphans)[h]
    {
      hide Consistent;
      var erase;
      work, erase, offered := Follow(id);
      ghost var log := refused;
      for k := 0 to |erase|
        invariant Valid() && mempool == old(mempool) + ToSet(work) && refused == log
        invariant orphans.Keys == old(orphans).Keys - ToSet(erase[..k])
        invariant forall h :: h in orphans ==> orphans[h] == old(orphans)[h]
      {
        assert erase[..k + 1] == erase[..k] + [erase[k]];
        Erase(erase[k]);
      }
      assert erase[..|erase|] == erase;
      DependantsMeans(old(byPrev), work, |work|);
    }
  }

  /** What was logged after the log held `n` entries. */
  function Since(log: seq<nat>, n: nat): set<nat> {
    if n <= |log| then ToSet(log[n..]) else {}
  }

  lemma SinceAppend(log: seq<nat>, n: nat, x: nat)
    requires n <= |log|
    ensures Since(log + [x], n) == Since(log, n) + {x}
  {
    assert (log + [x])[n..] == log[n..] + [x];
  }

  /** What offering some orphans did: the accepted ones went from `work` to `work'`, the final refusals to the log. */
  ghost predicate Grew(pool: set<nat>, pool': set<nat>, orphans: set<nat>, log: seq<nat>, log': seq<nat>, since: nat,
                       work: seq<nat>, work': seq<nat>, erase': seq<nat>, offered': set<nat>) {
    && NoDuplicates(work') && work <= work' && (forall i :: |work| <= i < |work'| ==> work'[i] in orphans)
    && pool' == pool + (ToSet(work') - ToSet(work)) && ToSet(work') <= pool'
    && ToSet(erase') == ToSet(work') + Since(log', since)
    && ToSet(work') <= ToSet(work) + offered' && Since(log', since) <= Since(log, since) + offered'
  }

  /** What the drain has done so far: accepted `work`, marked `erase`, offered `offered`. */
  ghost predicate Draining(was: set<nat>, pool: set<nat>, orphans: set<nat>, log: seq<nat>, since: nat, id: nat,
                           work: seq<nat>, erase: seq<nat>, offered: set<nat>) {
    && |work| > 0 && work[0] == id && NoDuplicates(work) && (forall k :: 1 <= k < |work| ==> work[k] in orphans)
    && pool == was + ToSet(work)
    && ToSet(erase) == ToSet(work) + Since(log, since)
    && ToSet(work) <= {id} + offered && Since(log, since) <= offered
  }

  lemma DrainingMeans(was: set<nat>, pool: set<nat>, orphans: set<nat>, log: seq<nat>, since: nat, id: nat,
                      work: seq<nat>, erase: seq<nat>, offered: set<nat>)
    requires Draining(was, pool, orphans, log, since, id, work, erase, offered)
    ensures |work| > 0 && work[0] == id && NoDuplicates(work) && (forall k :: 1 <= k < |work| ==> work[k] in orphans)
    ensures pool == was + ToSet(work) && ToSet(work) <= pool && ToSet(erase) == ToSet(work) + Since(log, since)
    ensures ToSet(work) <= {id} + offered && Since(log, since) <= offered
  {
    hide ToSet, Since, NoDuplicates;
  }

  lemma DrainStarts(was: set<nat>, orphans: set<nat>, log: seq<nat>, id: nat)
    requires id in was
    ensures Draining(was, was, orphans, log, |log|, id, [id], [id], {})
  {
    SinceNow(log);
    assert ToSet([id]) == {id};
  }

  lemma DrainContinues(was: set<nat>, pool: set<nat>, pool': set<nat>, orphans: set<nat>, log: seq<nat>, log': seq<nat>,
                       since: nat, id: nat, work: seq<nat>, erase: seq<nat>, offered: set<nat>,
                       work': seq<nat>, erase': seq<nat>, offered': set<nat>)
    requires Draining(was, pool, orphans, log, since, id, work, erase, offered) && offered <= offered'
    requires Grew(pool, pool', orphans, log, log', since, work, work', erase', offered')
    ensures Draining(was, pool', orphans, log', since, id, work', erase', offered') && |work'| <= |orphans| + 1
  {
    hide ToSet, Since, NoDuplicates;
    PrefixSubset(work, work');
    forall k | 1 <= k < |work'|
      ensures work'[k] in orphans
    {
      if k < |work| {
        assert work'[k] == work[k];
      }
    }
    WorkFits(work', orphans);
  }

  /** `log` starts with `was`. */
  predicate Extends(log: seq<nat>, was: seq<nat>) {
    was <= log
  }

  lemma ExtendsItself(log: seq<nat>)
    ensures Extends(log, log)
  {
  }

  lemma ExtendsOn(a: seq<nat>, b: seq<nat>, c: seq<nat>)
    requires Extends(b, a) && Extends(c, b)
    ensures Extends(c, a) && |a| <= |b| <= |c|
  {
  }

  lemma PrefixSubset(a: seq<nat>, b: seq<nat>)
    requires a <= b
    ensures ToSet(a) <= ToSet(b)
  {
  }

  lemma SinceNow(log: seq<nat>)
    ensures Since(log, |log|) == {}
  {
  }

  lemma StaysDistinct(work: seq<nat>, pool: set<nat>, h: nat)
    requires NoDuplicates(work) && ToSet(work) <= pool
    ensures h !in pool ==> NoDuplicates(work + [h])
  {
    assert forall k :: 0 <= k < |work| ==> work[k] in ToSet(work);
  }

  lemma ToSetAppend(s: seq<nat>, x: nat)
    ensures ToSet(s + [x]) == ToSet(s) + {x}
  {
  }

  lemma ListedIsOrphan(orphans: map<nat, Tx>, byPrev: map<nat, set<nat>>, p: nat, h: nat)
    requires Consistent(orphans, byPrev) && p in byPrev && h in byPrev[p]
    ensures h in orphans
  {
    assert Lists(byPrev, p, h);
  }

  /** The orphans listed under one of the first `k` transactions of `work`. */
  ghost function Dependants(byPrev: map<nat, set<nat>>, work: seq<nat>, k: nat): set<nat>
    requires k <= |work|
  {
    if k == 0 then {}
    else Dependants(byPrev, work, k - 1) + if work[k - 1] in byPrev then byPrev[work[k - 1]] else {}
  }

  lemma DependantsOfNone(byPrev: map<nat, set<nat>>, work: seq<nat>)
    ensures Dependants(byPrev, work, 0) == {}
  {
  }

  lemma DependantsNext(byPrev: map<nat, set<nat>>, work: seq<nat>, k: nat)
    requires k < |work|
    ensures Dependants(byPrev, work, k + 1) == Dependants(byPrev, work, k) + if work[k] in byPrev then byPrev[work[k]] else {}
  {
  }

  lemma {:induction false} DependantsStay(byPrev: map<nat, set<nat>>, work: seq<nat>, longer: seq<nat>, k: nat)
    requires k <= |work| && work <= longer
    ensures Dependants(byPrev, longer, k) == Dependants(byPrev, work, k)
  {
    if k > 0 {
      DependantsStay(byPrev, work, longer, k - 1);
    }
  }

  lemma {:induction false} DependantsMeans(byPrev: map<nat, set<nat>>, work: seq<nat>, k: nat)
    requires k <= |work|
    ensures forall h :: h in Dependants(byPrev, work, k) <==> exists i :: 0 <= i < k && Lists(byPrev, work[i], h)
  {
    if k > 0 {
      DependantsMeans(byPrev, work, k - 1);
    }
  }

  lemma WorkFits(work: seq<nat>, bound: set<nat>)
    requires |work| > 0 && NoDuplicates(work) && forall k :: 1 <= k < |work| ==> work[k] in bound
    ensures |work| <= |bound| + 1
  {
    var tail := work[1..];
    forall i | 0 <= i < |tail|
      ensures tail[i] in bound
    {
      assert tail[i] == work[i + 1];
    }
    DistinctFitIn(tail, bound);
  }
}
