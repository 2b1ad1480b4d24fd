/**
 InstantX transaction locks: collecting blanknode votes (ProcessMessageInstantX, CreateNewLock,
 ProcessConsensusVote, CheckForConflictingLocks) and expiring locks (CleanTransactionLocksList).
 Blanknode ranks, signatures, input ages, the memory pool and the clock are parameters.
 */
module InstantX {
  import opened Positional
  import opened Ledger

  const SIGNATURES_REQUIRED := 15
  const SIGNATURES_TOTAL := 20

  datatype Vote = Vote(blanknode: OutPoint, txHash: nat, height: int)

  datatype TxLock = TxLock(height: int, txHash: nat, votes: seq<Vote>, expiration: int, timeout: int)

  type Locks = map<nat, TxLock>

  /** CConsensusVote::GetHash: outpoint and transaction hash added up, modulo 2^256. */
  function VoteHash(v: Vote): nat {
    (v.blanknode.hash + v.blanknode.n + v.txHash) % UINT256
  }

  // ---------------------------------------------------------------- counting signatures

  /** How many of the first `k` votes are for height `h`. */
  function CountAt(votes: seq<Vote>, h: int, k: nat): nat
    requires k <= |votes|
  {
    if k == 0 then 0 else CountAt(votes, h, k - 1) + if votes[k - 1].height == h then 1 else 0
  }

  method CountSignatures(lock: TxLock) returns (n: int)
    ensures n == if lock.height == 0 then -1 else CountAt(lock.votes, lock.height, |lock.votes|)
  {
    if lock.height == 0 {
      return -1;
    }
    n := 0;
    for i := 0 to |lock.votes|
      invariant n == CountAt(lock.votes, lock.height, i)
    {
      if lock.votes[i].height == lock.height {
        n := n + 1;
      }
    }
  }

  /** The blanknodes that voted for height `h`, among the first `k` votes. */
  function Voters(votes: seq<Vote>, h: int, k: nat): set<OutPoint>
    requires k <= |votes|
  {
    set i | 0 <= i < k && votes[i].height == h :: votes[i].blanknode
  }

  /** Every vote of the lock is for its transaction, and no two have the same hash. */
  ghost predicate LockOk(lock: TxLock) {
    && (forall i :: 0 <= i < |lock.votes| ==> lock.votes[i].txHash == lock.txHash)
    && (forall i, j :: 0 <= i < j < |lock.votes| ==> VoteHash(lock.votes[i]) != VoteHash(lock.votes[j]))
  }

  /** In such a lock the signature count is the number of distinct blanknode outpoints that voted at the height. */
  lemma {:induction false} CountIsDistinctVoters(lock: TxLock, h: int, k: nat)
    requires LockOk(lock) && k <= |lock.votes|
    ensures CountAt(lock.votes, h, k) == |Voters(lock.votes, h, k)|
  {
    if k > 0 {
      CountIsDistinctVoters(lock, h, k - 1);
      var v, before := lock.votes[k - 1], Voters(lock.votes, h, k - 1);
      if v.height == h {
        assert Voters(lock.votes, h, k) == before + {v.blanknode};
        forall i | 0 <= i < k - 1 && lock.votes[i].height == h
          ensures lock.votes[i].blanknode != v.blanknode
        {
          assert VoteHash(lock.votes[i]) != VoteHash(v);
        }
      } else {
        assert Voters(lock.votes, h, k) == before;
      }
    }
  }

  /** A blanknode has at most one vote in a lock, whatever heights it names. */
  lemma OneVotePerNode(lock: TxLock, i: nat, j: nat)
    requires LockOk(lock) && i < j < |lock.votes|
    ensures lock.votes[i].blanknode != lock.votes[j].blanknode
  {
    assert VoteHash(lock.votes[i]) != VoteHash(lock.votes[j]);
  }

  /** A lock is complete exactly when fifteen blanknodes voted for its height, and that height is known. */
  lemma CompleteIff(lock: TxLock)
    requires LockOk(lock)
    ensures Complete(lock) <==> lock.height != 0 && |Voters(lock.votes, lock.height, |lock.votes|)| >= 15
  {
    CountIsDistinctVoters(lock, lock.height, |lock.votes|);
  }

  /** Votes of two outputs of one transaction have different hashes; the height does not enter. */
  lemma VoteHashTells(v: Vote, w: Vote)
    requires v.txHash == w.txHash && v.blanknode.hash == w.blanknode.hash
    requires v.blanknode.n <= 0xFFFF_FFFF && w.blanknode.n <= 0xFFFF_FFFF
    ensures VoteHash(v) == VoteHash(w) <==> v.blanknode == w.blanknode
  {
    var a, b := v.blanknode.hash + v.blanknode.n + v.txHash, w.blanknode.hash + w.blanknode.n + w.txHash;
    assert a == a / UINT256 * UINT256 + a % UINT256 && b == b / UINT256 * UINT256 + b % UINT256;
    if a % UINT256 == b % UINT256 {
      assert a - b == (a / UINT256 - b / UINT256) * UINT256;
    }
  }

  // ---------------------------------------------------------------- the invariant

  /** Locks are filed under their transaction, hold only its votes, and no vote hash occurs twice anywhere. */
  ghost predicate LocksOk(locks: Locks) {
    && (forall k :: k in locks ==> locks[k].txHash == k && LockOk(locks[k]))
    && (forall k, l, i, j :: k in locks && l in locks && k != l && 0 <= i < |locks[k].votes| && 0 <= j < |locks[l].votes| ==>
          VoteHash(locks[k].votes[i]) != VoteHash(locks[l].votes[j]))
  }

  /** Every stored vote's hash is in the seen-vote map and the vote passed the rank and signature checks. */
  ghost predicate VotesSeen(locks: Locks, seen: set<nat>, approved: set<Vote>) {
    forall k, i :: k in locks && 0 <= i < |locks[k].votes| ==>
      VoteHash(locks[k].votes[i]) in seen && locks[k].votes[i] in approved
  }

  /** Enough signatures at the lock's own height, which is known. */
  predicate Complete(lock: TxLock) {
    lock.height != 0 && CountAt(lock.votes, lock.height, |lock.votes|) >= SIGNATURES_REQUIRED
  }

  /** Requests are filed under their own ids, apart from empty placeholders. */
  predicate RequestsOk(requests: map<nat, Tx>) {
    forall k :: k in requests ==> requests[k].id == k || requests[k].vin == []
  }

  /** Same locks up to their timers and heights. */
  ghost predicate SameVotes(a: Locks, b: Locks) {
    a.Keys == b.Keys && forall k :: k in a ==> a[k].txHash == b[k].txHash && a[k].votes == b[k].votes
  }

  function LockOrNew(locks: Locks, txHash: nat, now: int): TxLock {
    if txHash in locks then locks[txHash] else TxLock(0, txHash, [], now + 60 * 60, now + 60 * 5)
  }

  function WithVote(locks: Locks, v: Vote, now: int): Locks {
    var lock := LockOrNew(locks, v.txHash, now);
    locks[v.txHash := lock.(votes := lock.votes + [v])]
  }

  /** A vote whose hash was never seen can be added. */
  lemma AddUnseenVote(locks: Locks, seen: set<nat>, approved: set<Vote>, v: Vote, now: int)
    requires LocksOk(locks) && VotesSeen(locks, seen, approved) && VoteHash(v) !in seen
    ensures LocksOk(WithVote(locks, v, now))
    ensures VotesSeen(WithVote(locks, v, now), seen + {VoteHash(v)}, approved + {v})
  {
    var locks' := WithVote(locks, v, now);
    var lock := LockOrNew(locks, v.txHash, now);
    forall i | 0 <= i < |lock.votes|
      ensures v.txHash in locks && VoteHash(lock.votes[i]) in seen && VoteHash(lock.votes[i]) != VoteHash(v)
    {
    }
    assert LockOk(locks'[v.txHash]);
    forall k, i | k in locks && k != v.txHash && 0 <= i < |locks[k].votes|
      ensures VoteHash(locks[k].votes[i]) in seen && VoteHash(locks[k].votes[i]) != VoteHash(v)
    {
    }
  }

  lemma SameVotesOk(a: Locks, b: Locks, seen: set<nat>, approved: set<Vote>)
    requires SameVotes(a, b) && LocksOk(a) && VotesSeen(a, seen, approved)
    ensures LocksOk(b) && VotesSeen(b, seen, approved)
  {
    forall k | k in b
      ensures b[k].txHash == k && LockOk(b[k])
    {
      assert LockOk(a[k]);
    }
  }

  function HashesOf(votes: seq<Vote>): set<nat> {
    set i | 0 <= i < |votes| :: VoteHash(votes[i])
  }

  /** Dropping a lock, and forgetting the hashes of its own votes, keeps every other stored vote recorded. */
  lemma DropLock(locks: Locks, seen: set<nat>, approved: set<Vote>, k: nat)
    requires LocksOk(locks) && VotesSeen(locks, seen, approved) && k in locks
    ensures LocksOk(locks - {k})
    ensures VotesSeen(locks - {k}, seen, approved) && VotesSeen(locks - {k}, seen - HashesOf(locks[k].votes), approved)
  {
  }

  // ---------------------------------------------------------------- what the handlers write

  type Inputs = map<OutPoint, nat>

  /** The lock table after CreateNewLock: unchanged when some input is too new. */
  function LockFiled(locks: Locks, tx: Tx, ages: seq<int>, bestHeight: int, now: int): Locks {
    if exists i :: 0 <= i < |ages| && ages[i] < 6 then locks
    else
      var height := bestHeight - (if ages == [] then 0 else ages[0]) + 4;
      if tx.id in locks then locks[tx.id := locks[tx.id].(height := height)]
      else locks[tx.id := TxLock(height, tx.id, [], now + 60 * 60, now + 60 * 5)]
  }

  /** The output is locked by another transaction. */
  predicate Taken(o: OutPoint, locked: Inputs, id: nat) {
    o in locked && locked[o] != id
  }

  /** The first input that another transaction has locked; the number of inputs if there is none. */
  function FirstTaken(vin: seq<OutPoint>, locked: Inputs, id: nat): (i: nat)
    ensures i <= |vin| && (i < |vin| ==> Taken(vin[i], locked, id))
    ensures forall k :: 0 <= k < i ==> !Taken(vin[k], locked, id)
  {
    if vin == [] || Taken(vin[0], locked, id) then 0 else 1 + FirstTaken(vin[1..], locked, id)
  }

  predicate Conflicts(tx: Tx, locked: Inputs) {
    FirstTaken(tx.vin, locked, tx.id) < |tx.vin|
  }

  function ExpireNow(locks: Locks, k: nat, now: int): Locks {
    if k in locks then locks[k := locks[k].(expiration := now)] else locks
  }

  /** The lock table after a conflict over the first taken input: both parties expire now. */
  function Cancelled(locks: Locks, tx: Tx, locked: Inputs, now: int): Locks
    requires Conflicts(tx, locked)
  {
    ExpireNow(ExpireNow(locks, tx.id, now), locked[tx.vin[FirstTaken(tx.vin, locked, tx.id)]], now)
  }

  /** Every input that is not locked yet becomes locked by `id`. */
  function Claimed(locked: Inputs, vin: seq<OutPoint>, id: nat): Inputs {
    map o | o in locked.Keys + (set i | 0 <= i < |vin| :: vin[i]) :: if o in locked then locked[o] else id
  }

  /** The maps that handlers update together: mapTxLockReq, mapTxLockReqRejected, mapTxLocks, mapLockedInputs. */
  datatype Book = Book(requests: map<nat, Tx>, rejected: map<nat, Tx>, locks: Locks, locked: Inputs)

  /** The book after an approved vote. */
  function AfterVote(b: Book, v: Vote, now: int, emptyTx: Tx): Book {
    var locks := WithVote(b.locks, v, now);
    if !Complete(locks[v.txHash]) then b.(locks := locks)
    else
      var requests := if v.txHash in b.requests then b.requests else b.requests[v.txHash := emptyTx];
      var tx := requests[v.txHash];
      if Conflicts(tx, b.locked) then b.(requests := requests, locks := Cancelled(locks, tx, b.locked, now))
      else b.(requests := requests, locks := locks, locked := Claimed(b.locked, tx.vin, v.txHash))
  }

  /** The book after a valid new request. */
  function AfterRequest(b: Book, tx: Tx, ages: seq<int>, bestHeight: int, accepted: bool, now: int): Book {
    var locks := LockFiled(b.locks, tx, ages, bestHeight, now);
    if accepted then b.(requests := b.requests[tx.id := tx], locks := locks)
    else
      var b' := b.(rejected := b.rejected[tx.id := tx], locks := locks, locked := Claimed(b.locked, tx.vin, tx.id));
      if tx.id !in locks || !Complete(locks[tx.id]) then b'
      else if Conflicts(tx, b'.locked) then b'.(locks := Cancelled(locks, tx, b'.locked, now))
      else b'.(requests := b.requests[tx.id := tx])
  }

  /** A vote that completes a lock without conflict leaves every input of the requested transaction locked by it. */
  lemma CompletingVoteLocksInputs(b: Book, v: Vote, now: int, emptyTx: Tx)
    requires v.txHash in b.requests && RequestsOk(b.requests)
    requires Complete(WithVote(b.locks, v, now)[v.txHash]) && !Conflicts(b.requests[v.txHash], b.locked)
    ensures var tx, locked := b.requests[v.txHash], AfterVote(b, v, now, emptyTx).locked;
      forall i :: 0 <= i < |tx.vin| ==> tx.vin[i] in locked && locked[tx.vin[i]] == v.txHash
  {
    var tx, locked := b.requests[v.txHash], AfterVote(b, v, now, emptyTx).locked;
    forall i | 0 <= i < |tx.vin|
      ensures tx.vin[i] in locked && locked[tx.vin[i]] == v.txHash
    {
      assert !Taken(tx.vin[i], b.locked, tx.id);
    }
  }

  /** A vote that completes a lock against another owner of an input makes both locks expire now, and no other. */
  lemma ConflictingVoteExpiresBoth(b: Book, v: Vote, now: int, emptyTx: Tx, i: nat)
    requires v.txHash in b.requests && b.requests[v.txHash].id == v.txHash && Complete(WithVote(b.locks, v, now)[v.txHash])
    requires var vin := b.requests[v.txHash].vin;
      && i < |vin| && vin[i] in b.locked && b.locked[vin[i]] != v.txHash
      && forall k :: 0 <= k < i ==> !(vin[k] in b.locked && b.locked[vin[k]] != v.txHash)
    ensures var b', owner := AfterVote(b, v, now, emptyTx), b.locked[b.requests[v.txHash].vin[i]];
      && b'.locks.Keys == b.locks.Keys + {v.txHash} && b'.locked == b.locked
      && b'.locks[v.txHash].expiration == now && (owner in b.locks ==> b'.locks[owner] == b.locks[owner].(expiration := now))
      && forall k :: k in b.locks && k != v.txHash && k != owner ==> b'.locks[k] == b.locks[k]
  {
    hide Complete;
    var tx := b.requests[v.txHash];
    assert Taken(tx.vin[i], b.locked, tx.id);
    assert FirstTaken(tx.vin, b.locked, tx.id) == i;
  }

  /**
   What a new request leaves behind: a request under its id when accepted, otherwise a rejected one with every input
   locked, by this transaction unless another had it before. A rejected one whose lock is complete becomes a request
   if and only if no other transaction had one of its inputs.
   */
  lemma RequestRecorded(b: Book, tx: Tx, ages: seq<int>, bestHeight: int, accepted: bool, now: int)
    ensures var b' := AfterRequest(b, tx, ages, bestHeight, accepted, now);
      && (accepted ==> b'.requests == b.requests[tx.id := tx] && b'.rejected == b.rejected && b'.locked == b.locked)
      && (!accepted ==> b'.rejected == b.rejected[tx.id := tx])
      && (!accepted ==> forall i :: 0 <= i < |tx.vin| ==>
            tx.vin[i] in b'.locked &&
            b'.locked[tx.vin[i]] == if tx.vin[i] in b.locked then b.locked[tx.vin[i]] else tx.id)
      && var free := forall i :: 0 <= i < |tx.vin| && tx.vin[i] in b.locked ==> b.locked[tx.vin[i]] == tx.id;
      (!accepted ==>
         b'.requests == if tx.id in b'.locks && Complete(b'.locks[tx.id]) && free then b.requests[tx.id := tx] else b.requests)
  {
    hide FirstTaken, LockFiled, CountAt;
    if !accepted {
      ConflictAfterClaim(b.locked, tx);
    }
  }

  /** Claiming the inputs first leaves exactly the conflicts over inputs that another transaction had. */
  lemma ConflictAfterClaim(locked: Inputs, tx: Tx)
    ensures Conflicts(tx, Claimed(locked, tx.vin, tx.id)) <==>
            exists i :: 0 <= i < |tx.vin| && tx.vin[i] in locked && locked[tx.vin[i]] != tx.id
  {
    hide FirstTaken;
    var after := Claimed(locked, tx.vin, tx.id);
    forall i | 0 <= i < |tx.vin|
      ensures Taken(tx.vin[i], after, tx.id) <==> tx.vin[i] in locked && locked[tx.vin[i]] != tx.id
    {
    }
  }

  /** An input that is locked keeps its owner, whatever vote or request comes. */
  lemma OwnersStay(b: Book, v: Vote, tx: Tx, ages: seq<int>, bestHeight: int, accepted: bool, now: int, emptyTx: Tx, o: OutPoint)
    requires o in b.locked
    ensures var locked := AfterVote(b, v, now, emptyTx).locked; o in locked && locked[o] == b.locked[o]
    ensures var locked := AfterRequest(b, tx, ages, bestHeight, accepted, now).locked; o in locked && locked[o] == b.locked[o]
  {
    hide FirstTaken, WithVote, LockFiled, Complete;
  }

  /** The expired locks whose request is known. */
  ghost function ExpiredRequests(locks: Locks, requests: map<nat, Tx>, now: int): (s: set<nat>)
    ensures forall k :: k in s <==> k in locks && now > locks[k].expiration && k in requests
  {
    set k | k in locks && now > locks[k].expiration && k in requests
  }

  /** The inputs of the requests `ks`. */
  ghost function InputsOfAll(requests: map<nat, Tx>, ks: set<nat>): set<OutPoint> {
    set k, i | k in ks && k in requests && 0 <= i < |requests[k].vin| :: requests[k].vin[i]
  }

  /** The hashes of all votes in the locks `ks`. */
  ghost function HashesOfAll(locks: Locks, ks: set<nat>): set<nat> {
    set k, i | k in ks && k in locks && 0 <= i < |locks[k].votes| :: VoteHash(locks[k].votes[i])
  }

  lemma OneMoreGone(requests: map<nat, Tx>, locks: Locks, ks: set<nat>, k: nat)
    requires k in locks && k in requests
    ensures InputsOfAll(requests, ks + {k}) == InputsOfAll(requests, ks) + set i | 0 <= i < |requests[k].vin| :: requests[k].vin[i]
    ensures HashesOfAll(locks, ks + {k}) == HashesOfAll(locks, ks) + HashesOf(locks[k].votes)
  {
  }

  class Node {
    /** mapTxLockReq, mapTxLockReqRejected, mapTxLockVote, mapTxLocks, mapLockedInputs. */
    var requests: map<nat, Tx>
    var rejected: map<nat, Tx>
    var seenVotes: map<nat, Vote>
    var locks: Locks
    var lockedInputs: map<OutPoint, nat>
    /** Every vote that ever passed the rank and signature checks. */
    ghost var approved: set<Vote>

    ghost predicate Valid()
      reads this
    {
      LocksOk(locks) && VotesSeen(locks, seenVotes.Keys, approved) && RequestsOk(requests)
    }

    function Tables(): Book
      reads this
    {
      Book(requests, rejected, locks, lockedInputs)
    }

    constructor ()
      ensures Valid() && Tables() == Book(map[], map[], map[], map[]) && seenVotes == map[] && approved == {}
    {
      requests, rejected, seenVotes, locks, lockedInputs, approved := map[], map[], map[], map[], map[], {};
    }

    /** In every valid state, hence after every run: a count of 15 means 15 distinct blanknodes, each of them approved. */
    lemma CompleteLockHasDistinctVoters(k: nat)
      requires Valid() && k in locks
      requires CountAt(locks[k].votes, locks[k].height, |locks[k].votes|) >= SIGNATURES_REQUIRED
      ensures |Voters(locks[k].votes, locks[k].height, |locks[k].votes|)| >= SIGNATURES_REQUIRED
      ensures forall o :: o in Voters(locks[k].votes, locks[k].height, |locks[k].votes|) ==>
        Vote(o, k, locks[k].height) in approved
    {
      CountIsDistinctVoters(locks[k], locks[k].height, |locks[k].votes|);
      forall i | 0 <= i < |locks[k].votes| && locks[k].votes[i].height == locks[k].height
        ensures Vote(locks[k].votes[i].blanknode, k, locks[k].height) in approved
      {
        var v := locks[k].votes[i];
        assert v.txHash == k && v == Vote(v.blanknode, k, locks[k].height);
      }
    }

    /** CreateNewLock; `ages[i]` is the age of input `i`. Returns 0 when some input is too new. */
    method CreateNewLock(tx: Tx, ages: seq<int>, bestHeight: int, now: int) returns (height: int)
      requires Valid() && |ages| == |tx.vin|
      modifies this`locks
      ensures Valid()
      ensures locks == LockFiled(old(locks), tx, ages, bestHeight, now)
      ensures (exists i :: 0 <= i < |ages| && ages[i] < 6) ==> height == 0 && locks == old(locks)
      ensures (forall i :: 0 <= i < |ages| ==> ages[i] >= 6) ==>
        && height == bestHeight - (if ages == [] then 0 else ages[0]) + 4
        && tx.id in locks && locks[tx.id].height == height
        && locks[tx.id].votes == (if tx.id in old(locks) then old(locks)[tx.id].votes else [])
        && (tx.id !in old(locks) ==> locks[tx.id].expiration == now + 3600)
        && locks.Keys == old(locks).Keys + {tx.id} && forall k :: k in old(locks) && k != tx.id ==> locks[k] == old(locks)[k]
    {
      var age := 0;
      var i := |ages|;
      while i > 0
        invariant 0 <= i <= |ages| && forall j :: i <= j < |ages| ==> ages[j] >= 6
        invariant age == if i == |ages| then 0 else ages[i]
      {
        i := i - 1;
        age := ages[i];
        if age < 6 {
          return 0;
        }
      }
      height := bestHeight - age + 4;
      ghost var was := locks;
      if tx.id !in locks {
        locks := locks[tx.id := TxLock(height, tx.id, [], now + 60 * 60, now + 60 * 5)];
      } else {
        locks := locks[tx.id := locks[tx.id].(height := height)];
        SameVotesOk(was, locks, seenVotes.Keys, approved);
      }
    }

    /** CheckForConflictingLocks: two complete locks on one input cancel each other by expiring now. */
    method CheckForConflictingLocks(tx: Tx, now: int) returns (conflict: bool)
      requires Valid()
      modifies this`locks
      ensures Valid()
      ensures conflict <==> Conflicts(tx, lockedInputs)
      ensures locks == if conflict then Cancelled(old(locks), tx, lockedInputs, now) else old(locks)
      ensures conflict ==>
        var i := FirstTaken(tx.vin, lockedInputs, tx.id);
        var owner := lockedInputs[tx.vin[i]];
        && owner != tx.id && locks.Keys == old(locks).Keys
        && forall k :: k in locks ==>
          locks[k] == if k == tx.id || k == owner then old(locks)[k].(expiration := now) else old(locks)[k]
    {
      for i := 0 to |tx.vin|
        invariant locks == old(locks)
        invariant forall j :: 0 <= j < i ==> !Taken(tx.vin[j], lockedInputs, tx.id)
      {
        if Taken(tx.vin[i], lockedInputs, tx.id) {
          assert FirstTaken(tx.vin, lockedInputs, tx.id) == i;
          var other := lockedInputs[tx.vin[i]];
          if tx.id in locks {
            locks := locks[tx.id := locks[tx.id].(expiration := now)];
          }
          if other in locks {
            locks := locks[other := locks[other].(expiration := now)];
          }
          SameVotesOk(old(locks), locks, seenVotes.Keys, approved);
          return true;
        }
      }
      return false;
    }

    /** A conflict and the next cleaning: neither party to it keeps its lock. */
    method CancelThenClean(tx: Tx, now: int) returns (conflict: bool)
      requires Valid()
      modifies this
      ensures Valid()
      ensures conflict <==> exists i :: 0 <= i < |tx.vin| && tx.vin[i] in old(lockedInputs) && old(lockedInputs)[tx.vin[i]] != tx.id
      ensures conflict ==>
        tx.id !in locks && old(lockedInputs)[tx.vin[FirstTaken(tx.vin, old(lockedInputs), tx.id)]] !in locks
    {
      conflict := CheckForConflictingLocks(tx, now);
      assert conflict <==> exists i :: 0 <= i < |tx.vin| && Taken(tx.vin[i], old(lockedInputs), tx.id);
      Clean(now + 1);
    }

    /** Claims every input of `tx` that is not locked yet. */
    method LockInputs(tx: Tx, id: nat)
      modifies this`lockedInputs
      ensures lockedInputs == Claimed(old(lockedInputs), tx.vin, id)
    {
      for i := 0 to |tx.vin|
        invariant forall o :: o in lockedInputs <==> o in old(lockedInputs) || o in tx.vin[..i]
        invariant forall o :: o in lockedInputs ==> lockedInputs[o] == if o in old(lockedInputs) then old(lockedInputs)[o] else id
      {
        assert tx.vin[..i + 1] == tx.vin[..i] + [tx.vin[i]];
        if tx.vin[i] !in lockedInputs {
          lockedInputs := lockedInputs[tx.vin[i] := id];
        }
      }
      assert tx.vin[..|tx.vin|] == tx.vin;
    }

    /**
     ProcessConsensusVote for a vote whose hash was just recorded and had not been seen before.
     Completing a lock on an unknown request files an empty placeholder request, as the map access does.
     */
    method ProcessConsensusVote(v: Vote, rank: int, sigOk: bool, now: int, emptyTx: Tx) returns (ok: bool)
      requires LocksOk(locks) && VotesSeen(locks, seenVotes.Keys - {VoteHash(v)}, approved) && RequestsOk(requests)
      requires VoteHash(v) in seenVotes && emptyTx.vin == []
      modifies this`locks, this`requests, this`lockedInputs, this`approved
      ensures Valid()
      ensures ok <==> rank != -1 && rank <= SIGNATURES_TOTAL && sigOk
      ensures Tables() == if ok then AfterVote(old(Tables()), v, now, emptyTx) else old(Tables())
      ensures approved == if ok then old(approved) + {v} else old(approved)
    {
      hide LocksOk, CountAt, FirstTaken, Claimed;
      if rank == -1 || rank > SIGNATURES_TOTAL || !sigOk {
        OldVotesSeen(locks, seenVotes.Keys, VoteHash(v), approved);
        return false;
      }
      ghost var unseen := seenVotes.Keys - {VoteHash(v)};
      AddUnseenVote(locks, unseen, approved, v, now);
      assert unseen + {VoteHash(v)} == seenVotes.Keys;
      locks, approved := WithVote(locks, v, now), approved + {v};
      var n := CountSignatures(locks[v.txHash]);
      if n >= SIGNATURES_REQUIRED {
        if v.txHash !in requests {
          requests := requests[v.txHash := emptyTx];
        }
        var tx := requests[v.txHash];
        var conflict := CheckForConflictingLocks(tx, now);
        if !conflict {
          LockInputs(tx, v.txHash);
        }
      }
      return true;
    }

    /** The "txlvote" message: a vote hash is processed at most once while it is remembered. */
    method OnVote(v: Vote, rank: int, sigOk: bool, now: int, emptyTx: Tx)
      requires Valid() && emptyTx.vin == []
      modifies this
      ensures Valid()
      ensures var processed := VoteHash(v) !in old(seenVotes) && rank != -1 && rank <= SIGNATURES_TOTAL && sigOk;
        && seenVotes == (if VoteHash(v) in old(seenVotes) then old(seenVotes) else old(seenVotes)[VoteHash(v) := v])
        && Tables() == (if processed then AfterVote(old(Tables()), v, now, emptyTx) else old(Tables()))
        && approved == if processed then old(approved) + {v} else old(approved)
    {
      if VoteHash(v) in seenVotes {
        return;
      }
      assert seenVotes.Keys == (seenVotes.Keys + {VoteHash(v)}) - {VoteHash(v)};
      seenVotes := seenVotes[VoteHash(v) := v];
      var _ := ProcessConsensusVote(v, rank, sigOk, now, emptyTx);
    }

    /** The "txlreq" message; `own` is the vote this node signs for the request, if it is a ranked blanknode. */
    method OnRequest(tx: Tx, valid: bool, ages: seq<int>, bestHeight: int, accepted: bool, now: int,
                     own: Vote, votes: bool)
      requires Valid() && |ages| == |tx.vin|
      modifies this
      ensures Valid() && approved == old(approved)
      ensures var ignored := tx.id in old(requests) || tx.id in old(rejected) || !valid;
        && Tables() == (if ignored then old(Tables()) else AfterRequest(old(Tables()), tx, ages, bestHeight, accepted, now))
        && seenVotes == if !ignored && accepted && votes then old(seenVotes)[VoteHash(own) := own] else old(seenVotes)
    {
      hide LocksOk, CountAt, FirstTaken, Claimed, LockFiled;
      if tx.id in requests || tx.id in rejected || !valid {
        return;
      }
      var height := CreateNewLock(tx, ages, bestHeight, now);
      if accepted {
        if votes {
          seenVotes := seenVotes[VoteHash(own) := own];
        }
        requests := requests[tx.id := tx];
      } else {
        rejected := rejected[tx.id := tx];
        LockInputs(tx, tx.id);
        if tx.id in locks {
          var n := CountSignatures(locks[tx.id]);
          if n >= SIGNATURES_REQUIRED {
            var conflict := CheckForConflictingLocks(tx, now);
            if !conflict {
              requests := requests[tx.id := tx];
            }
          }
        }
      }
    }

    /** The wallet's own lock request: recorded unless already there, then given a lock. */
    method RelayOwnRequest(tx: Tx, ages: seq<int>, bestHeight: int, now: int)
      requires Valid() && |ages| == |tx.vin|
      modifies this`requests, this`locks
      ensures Valid() && requests == (if tx.id in old(requests) then old(requests) else old(requests)[tx.id := tx])
      ensures locks == LockFiled(old(locks), tx, ages, bestHeight, now)
    {
      if tx.id !in requests {
        requests := requests[tx.id := tx];
      }
      var _ := CreateNewLock(tx, ages, bestHeight, now);
    }

    /** What cleaning does for one expired lock. */
    method Expire(k: nat)
      requires Valid() && k in locks
      modifies this
      ensures Valid() && locks == old(locks) - {k} && approved == old(approved)
      ensures k !in old(requests) ==>
        requests == old(requests) && rejected == old(rejected) && lockedInputs == old(lockedInputs) && seenVotes == old(seenVotes)
      ensures k in old(requests) ==>
        && requests == old(requests) - {k} && rejected == old(rejected) - {k}
        && lockedInputs == old(lockedInputs) - (set i | 0 <= i < |old(requests)[k].vin| :: old(requests)[k].vin[i])
        && seenVotes == old(seenVotes) - HashesOf(old(locks)[k].votes)
    {
      hide LocksOk;
      DropLock(locks, seenVotes.Keys, approved, k);
      if k in requests {
        var tx, votes := requests[k], locks[k].votes;
        EraseInputs(tx);
        requests, rejected := requests - {k}, rejected - {k};
        var was := seenVotes;
        for i := 0 to |votes|
          invariant seenVotes == was - HashesOf(votes[..i])
          invariant locks == old(locks) && approved == old(approved)
          invariant requests == old(requests) - {k} && rejected == old(rejected) - {k}
          invariant lockedInputs == old(lockedInputs) - (set i | 0 <= i < |tx.vin| :: tx.vin[i])
        {
          assert HashesOf(votes[..i + 1]) == HashesOf(votes[..i]) + {VoteHash(votes[i])};
          seenVotes := seenVotes - {VoteHash(votes[i])};
        }
        assert votes[..|votes|] == votes;
      }
      locks := locks - {k};
    }

    method EraseInputs(tx: Tx)
      modifies this`lockedInputs
      ensures lockedInputs == old(lockedInputs) - (set i | 0 <= i < |tx.vin| :: tx.vin[i])
    {
      for i := 0 to |tx.vin|
        invariant lockedInputs == old(lockedInputs) - (set k | 0 <= k < i :: tx.vin[k])
      {
        assert (set k | 0 <= k < i + 1 :: tx.vin[k]) == (set k | 0 <= k < i :: tx.vin[k]) + {tx.vin[i]};
        lockedInputs := lockedInputs - {tx.vin[i]};
      }
    }

    /**
     CleanTransactionLocksList: exactly the locks that are not expired remain. An expired lock whose request is
     known takes the request, its inputs and its remembered votes with it.
     */
    method Clean(now: int)
      requires Valid()
      modifies this
      ensures Valid() && approved == old(approved)
      ensures forall k :: k in locks <==> k in old(locks) && now <= old(locks)[k].expiration
      ensures forall k :: k in locks ==> locks[k] == old(locks)[k]
      ensures var gone := ExpiredRequests(old(locks), old(requests), now);
        && requests == old(requests) - gone && rejected == old(rejected) - gone
        && lockedInputs == old(lockedInputs) - InputsOfAll(old(requests), gone)
        && seenVotes == old(seenVotes) - HashesOfAll(old(locks), gone)
    {
      hide LocksOk, VotesSeen, InputsOfAll, HashesOfAll, HashesOf;
      var todo := locks.Keys;
      ghost var gone: set<nat> := {};
      NoneGone(requests, locks);
      while todo != {}
        invariant Valid() && todo <= old(locks).Keys && approved == old(approved)
        invariant forall k :: k in locks <==> k in old(locks) && (k in todo || now <= old(locks)[k].expiration)
        invariant forall k :: k in locks ==> locks[k] == old(locks)[k]
        invariant forall k :: k in gone <==>
          k in old(locks) && k !in todo && now > old(locks)[k].expiration && k in old(requests)
        invariant requests == old(requests) - gone && rejected == old(rejected) - gone
        invariant lockedInputs == old(lockedInputs) - InputsOfAll(old(requests), gone)
        invariant seenVotes == old(seenVotes) - HashesOfAll(old(locks), gone)
        decreases todo
      {
        var k :| k in todo;
        todo := todo - {k};
        if now > locks[k].expiration {
          if k in requests {
            OneMoreGone(old(requests), old(locks), gone, k);
            gone := gone + {k};
          }
          Expire(k);
        }
      }
      assert gone == ExpiredRequests(old(locks), old(requests), now);
    }
  }

  lemma NoneGone(requests: map<nat, Tx>, locks: Locks)
    ensures InputsOfAll(requests, {}) == {} && HashesOfAll(locks, {}) == {}
  {
  }

  lemma OldVotesSeen(locks: Locks, seen: set<nat>, hash: nat, approved: set<Vote>)
    requires VotesSeen(locks, seen - {hash}, approved)
    ensures VotesSeen(locks, seen, approved)
  {
  }
}
