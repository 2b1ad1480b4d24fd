/**
 The tables of the address manager and the invariant that ties them together: the executable
 check of the source (CAddrMan::Check_) plus what the design promises beyond it, namely that a
 tried address sits in the bucket its hash names and that no bucket exceeds its size.
 */
module AddrTables {
  import opened Wrappers
  import opened Sequences

  const BUCKETS := 256
  const BUCKET_SIZE := 64
  const MAX_REFS := 8

  /** `services` is the set of flag bits; `time` is an unsigned 32-bit number. */
  datatype Address = Address(ip: nat, port: nat, services: set<nat>, time: nat)

  datatype Info = Info(addr: Address, source: nat, lastSuccess: int, lastTry: int, attempts: int,
                       refCount: int, inTried: bool, randomPos: int)

  function U32(x: int): (r: nat)
    ensures r < 0x1_0000_0000
  {
    x % 0x1_0000_0000
  }

  /** CAddrInfo's constructor. */
  function NewInfo(addr: Address, source: nat): Info {
    Info(addr, source, 0, 0, 0, 0, false, -1)
  }

  const DAY := 24 * 60 * 60

  /** CAddrInfo::IsTerrible. */
  predicate IsTerrible(i: Info, now: int) {
    if i.lastTry != 0 && i.lastTry >= now - 60 then false
    else
      || i.addr.time > now + 10 * 60
      || i.addr.time == 0 || now - i.addr.time > 30 * DAY
      || (i.lastSuccess == 0 && i.attempts >= 3)
      || (now - i.lastSuccess > 7 * DAY && i.attempts >= 10)
  }

  /**
   When an entry is worth keeping: tried within the last minute, or neither from the future nor unseen for 30 days, with
   fewer than 3 failures if it never succeeded, and fewer than 10 if its last success is over a week old.
   */
  lemma WorthKeeping(i: Info, now: int)
    ensures !IsTerrible(i, now) <==>
      (i.lastTry != 0 && now - i.lastTry <= 60) ||
      (0 < i.addr.time && now - 2_592_000 <= i.addr.time <= now + 600
       && (i.attempts < 3 || i.lastSuccess != 0) && (i.attempts < 10 || now - i.lastSuccess <= 604_800))
  {
  }

  /** The two keyed bucket hashes, as arbitrary functions. */
  datatype Hasher = Hasher(tried: (nat, nat, nat) -> nat, untried: (nat, nat, nat) -> nat)

  function TriedBucket(h: Hasher, key: nat, a: Address): (b: nat)
    ensures b < BUCKETS
  {
    h.tried(key, a.ip, a.port) % BUCKETS
  }

  function NewBucket(h: Hasher, key: nat, a: Address, source: nat): (b: nat)
    ensures b < BUCKETS
  {
    h.untried(key, a.ip, source) % BUCKETS
  }

  type Infos = map<nat, Info>

  /** The fields of CAddrMan; `untried` are its "new" buckets. */
  datatype Tables = Tables(info: Infos, addr: map<nat, nat>, random: seq<nat>, tried: seq<seq<nat>>,
                           untried: seq<set<nat>>, nTried: int, nNew: int, idCount: nat)

  // ---------------------------------------------------------------- the invariant

  /** Positions in the random vector and ids are inverse to each other. */
  ghost predicate RandomOk(info: Infos, random: seq<nat>) {
    && (forall n :: n in info ==> 0 <= info[n].randomPos < |random| && random[info[n].randomPos] == n)
    && (forall i :: 0 <= i < |random| ==> random[i] in info && info[random[i]].randomPos == i)
  }

  /** Network addresses and ids are inverse to each other. */
  ghost predicate AddrOk(info: Infos, addr: map<nat, nat>) {
    && (forall n :: n in info ==> info[n].addr.ip in addr && addr[info[n].addr.ip] == n)
    && (forall a :: a in addr ==> addr[a] in info && info[addr[a]].addr.ip == a)
  }

  /** The bucket `b` of tried addresses. */
  ghost predicate TriedBucketOk(h: Hasher, key: nat, info: Infos, bucket: seq<nat>, b: nat) {
    && |bucket| <= BUCKET_SIZE && NoDuplicates(bucket)
    && forall i :: 0 <= i < |bucket| ==>
      bucket[i] in info && info[bucket[i]].inTried && TriedBucket(h, key, info[bucket[i]].addr) == b
  }

  /** Each tried id sits in exactly the bucket its hash names. */
  ghost predicate TriedOk(h: Hasher, key: nat, info: Infos, tried: seq<seq<nat>>) {
    && |tried| == BUCKETS
    && (forall b: nat :: b < BUCKETS ==> TriedBucketOk(h, key, info, tried[b], b))
    && (forall n :: n in info && info[n].inTried ==> n in tried[TriedBucket(h, key, info[n].addr)])
  }

  /** The buckets that hold `n`. */
  ghost function Holders(untried: seq<set<nat>>, n: nat): set<nat> {
    set b: nat | b < |untried| && n in untried[b]
  }

  ghost predicate NewBucketsOk(info: Infos, untried: seq<set<nat>>) {
    && |untried| == BUCKETS
    && forall b :: 0 <= b < BUCKETS ==>
      |untried[b]| <= BUCKET_SIZE && forall n :: n in untried[b] ==> n in info && !info[n].inTried
  }

  /** The reference counted ahead of its insertion, while Add_ makes room in a bucket. */
  ghost function Owed(owed: Option<nat>, n: nat): nat {
    if owed == Some(n) then 1 else 0
  }

  /** Each reference count is the number of buckets that hold the id, between 1 and 8, or 0 for tried ids. */
  ghost predicate RefsOk(info: Infos, untried: seq<set<nat>>, owed: Option<nat>) {
    forall n :: n in info ==>
      if info[n].inTried then info[n].refCount == 0
      else info[n].refCount == |Holders(untried, n)| + Owed(owed, n) && 1 <= info[n].refCount <= MAX_REFS
  }

  predicate StatsOk(i: Info) {
    i.lastTry >= 0 && i.lastSuccess >= 0 && (i.inTried ==> i.lastSuccess != 0)
  }

  ghost predicate AllStatsOk(info: Infos) {
    forall n :: n in info ==> StatsOk(info[n])
  }

  function IdsWhere(info: Infos, inTried: bool): set<nat> {
    set n | n in info && info[n].inTried == inTried
  }

  ghost predicate CountsOk(t: Tables) {
    && t.nTried == |IdsWhere(t.info, true)|
    && t.nNew == |IdsWhere(t.info, false)|
    && forall n :: n in t.info ==> n < t.idCount
  }

  /** All that ties the tables to each other; `owed` is None between operations. */
  ghost predicate Linked(h: Hasher, key: nat, t: Tables, owed: Option<nat>) {
    && RandomOk(t.info, t.random)
    && AddrOk(t.info, t.addr)
    && TriedOk(h, key, t.info, t.tried)
    && NewBucketsOk(t.info, t.untried)
    && RefsOk(t.info, t.untried, owed)
    && CountsOk(t)
  }

  /** The whole invariant. */
  ghost predicate Consistent(h: Hasher, key: nat, t: Tables) {
    Linked(h, key, t, None) && AllStatsOk(t.info)
  }

  // ---------------------------------------------------------------- sizes

  lemma {:induction false} IdsSplit(info: Infos)
    ensures |IdsWhere(info, true)| + |IdsWhere(info, false)| == |info|
  {
    assert IdsWhere(info, true) + IdsWhere(info, false) == info.Keys;
    assert IdsWhere(info, true) !! IdsWhere(info, false);
  }

  lemma RandomListsAll(info: Infos, random: seq<nat>)
    requires RandomOk(info, random)
    ensures |random| == |info|
  {
    forall i, j | 0 <= i < j < |random|
      ensures random[i] != random[j]
    {
      assert info[random[i]].randomPos == i;
    }
    DistinctFitIn(random, info.Keys);
    CoveredBy(random, info.Keys);
  }

  /** A set whose elements all occur in a sequence is no larger than the sequence is long. */
  lemma {:induction false} CoveredBy<T>(s: seq<T>, covered: set<T>)
    requires forall x :: x in covered ==> x in s
    ensures |covered| <= |s|
  {
    if s != [] {
      var init, last := s[..|s| - 1], s[|s| - 1];
      forall x | x in covered - {last}
        ensures x in init
      {
        var i :| 0 <= i < |s| && s[i] == x;
        assert init[i] == x;
      }
      CoveredBy(init, covered - {last});
      assert |covered - {last}| >= |covered| - 1;
    } else {
      assert covered == {};
    }
  }

  /** All ids in the first `k` buckets of new addresses. */
  ghost function Union(untried: seq<set<nat>>, k: nat): set<nat>
    requires k <= |untried|
  {
    if k == 0 then {} else Union(untried, k - 1) + untried[k - 1]
  }

  lemma {:induction false} UnionBounded(info: Infos, untried: seq<set<nat>>, k: nat)
    requires NewBucketsOk(info, untried) && k <= BUCKETS
    ensures |Union(untried, k)| <= k * BUCKET_SIZE
    ensures forall b, n :: 0 <= b < k && n in untried[b] ==> n in Union(untried, k)
  {
    if k > 0 {
      UnionBounded(info, untried, k - 1);
      assert |Union(untried, k)| <= |Union(untried, k - 1)| + |untried[k - 1]|;
    }
  }

  /** All ids in the first `k` buckets of tried addresses. */
  ghost function Concat(tried: seq<seq<nat>>, k: nat): seq<nat>
    requires k <= |tried|
  {
    if k == 0 then [] else Concat(tried, k - 1) + tried[k - 1]
  }

  lemma {:induction false} ConcatBounded(h: Hasher, key: nat, info: Infos, tried: seq<seq<nat>>, k: nat)
    requires TriedOk(h, key, info, tried) && k <= BUCKETS
    ensures |Concat(tried, k)| <= k * BUCKET_SIZE
    ensures forall b, n :: 0 <= b < k && n in tried[b] ==> n in Concat(tried, k)
  {
    if k > 0 {
      ConcatBounded(h, key, info, tried, k - 1);
      assert TriedBucketOk(h, key, info, tried[k - 1], k - 1);
    }
  }

  /** The tables hold at most 256 * 64 tried and 256 * 64 new addresses. */
  lemma AtMost32768(h: Hasher, key: nat, t: Tables)
    requires Consistent(h, key, t)
    ensures t.nTried <= BUCKETS * BUCKET_SIZE && t.nNew <= BUCKETS * BUCKET_SIZE
    ensures |t.info| == |t.random| == t.nTried + t.nNew <= 32768
  {
    IdsSplit(t.info);
    RandomListsAll(t.info, t.random);
    ConcatBounded(h, key, t.info, t.tried, BUCKETS);
    CoveredBy(Concat(t.tried, BUCKETS), IdsWhere(t.info, true));
    UnionBounded(t.info, t.untried, BUCKETS);
    NewIdsHeld(t.info, t.untried);
    CardinalitySubset(IdsWhere(t.info, false), Union(t.untried, BUCKETS));
  }

  lemma NewIdsHeld(info: Infos, untried: seq<set<nat>>)
    requires NewBucketsOk(info, untried) && RefsOk(info, untried, None)
    ensures IdsWhere(info, false) <= Union(untried, BUCKETS)
  {
    UnionBounded(info, untried, BUCKETS);
    forall n | n in IdsWhere(info, false)
      ensures n in Union(untried, BUCKETS)
    {
      assert |Holders(untried, n)| >= 1;
      var b :| b in Holders(untried, n);
    }
  }

  // ---------------------------------------------------------------- entries up to their random position

  function Stat(i: Info): Info {
    i.(randomPos := -1)
  }

  /** Same ids, with entries that differ at most in their random position. */
  ghost predicate SameStats(a: Infos, b: Infos) {
    a.Keys == b.Keys && forall n :: n in a ==> Stat(a[n]) == Stat(b[n])
  }

  lemma SameStatsFields(a: Infos, b: Infos, n: nat)
    requires SameStats(a, b) && n in a
    ensures a[n].addr == b[n].addr && a[n].inTried == b[n].inTried && a[n].refCount == b[n].refCount
    ensures a[n].lastTry == b[n].lastTry && a[n].lastSuccess == b[n].lastSuccess && a[n].source == b[n].source
    ensures a[n].attempts == b[n].attempts
  {
    assert Stat(a[n]) == Stat(b[n]);
  }

  /** Nothing but the random vector cares about random positions. */
  lemma SameStatsLinked(h: Hasher, key: nat, t: Tables, owed: Option<nat>, info: Infos, random: seq<nat>)
    requires Linked(h, key, t, owed) && SameStats(info, t.info) && RandomOk(info, random)
    ensures Linked(h, key, t.(info := info, random := random), owed)
  {
    forall n | n in info
      ensures info[n].addr == t.info[n].addr && info[n].inTried == t.info[n].inTried
      ensures info[n].refCount == t.info[n].refCount
    {
      SameStatsFields(info, t.info, n);
    }
    assert forall tr :: IdsWhere(info, tr) == IdsWhere(t.info, tr);
    assert AddrOk(info, t.addr);
    SameStatsTried(h, key, t.info, info, t.tried);
    assert NewBucketsOk(info, t.untried);
    assert RefsOk(info, t.untried, owed);
  }

  lemma SameStatsTried(h: Hasher, key: nat, info: Infos, info': Infos, tried: seq<seq<nat>>)
    requires TriedOk(h, key, info, tried) && info'.Keys == info.Keys
    requires forall n :: n in info ==> info[n].addr == info'[n].addr && info[n].inTried == info'[n].inTried
    ensures TriedOk(h, key, info', tried)
  {
    forall b: nat | b < BUCKETS
      ensures TriedBucketOk(h, key, info', tried[b], b)
    {
      assert TriedBucketOk(h, key, info, tried[b], b);
    }
  }

  lemma SameStatsStats(a: Infos, b: Infos)
    requires AllStatsOk(a) && SameStats(b, a)
    ensures AllStatsOk(b)
  {
    forall n | n in b
      ensures StatsOk(b[n])
    {
      SameStatsFields(b, a, n);
      assert StatsOk(a[n]);
    }
  }

  // ---------------------------------------------------------------- who holds an id

  lemma HoldersDrop(untried: seq<set<nat>>, b: nat, n: nat)
    requires b < |untried| && n in untried[b]
    ensures var u := untried[b := untried[b] - {n}];
      |Holders(u, n)| == |Holders(untried, n)| - 1 && forall m :: m != n ==> Holders(u, m) == Holders(untried, m)
  {
    assert Holders(untried[b := untried[b] - {n}], n) == Holders(untried, n) - {b};
  }

  lemma HoldersAdd(untried: seq<set<nat>>, b: nat, n: nat)
    requires b < |untried| && n !in untried[b]
    ensures var u := untried[b := untried[b] + {n}];
      |Holders(u, n)| == |Holders(untried, n)| + 1 && forall m :: m != n ==> Holders(u, m) == Holders(untried, m)
  {
    assert Holders(untried[b := untried[b] + {n}], n) == Holders(untried, n) + {b};
  }

  lemma OnlyHolder(untried: seq<set<nat>>, b: nat, n: nat)
    requires b < |untried| && n in untried[b] && |Holders(untried, n)| == 1
    ensures forall c :: 0 <= c < |untried| && n in untried[c] ==> c == b
  {
    assert b in Holders(untried, n);
    CardinalitySubset({b}, Holders(untried, n));
    assert |Holders(untried, n) - {b}| == 0;
    forall c: nat | c < |untried| && n in untried[c]
      ensures c == b
    {
      assert c in Holders(untried, n);
    }
  }
}
