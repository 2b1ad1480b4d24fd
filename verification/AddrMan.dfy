/**
 The stochastic address manager: CAddrMan's operations on its redundant tables. The random numbers
 that decide who is kept and who goes are a parameter, as is the clock; other random choices are left open.
 */
module AddrMan {
  import opened Wrappers
  import opened Sequences
  import opened AddrTables
  import opened Positional

  datatype Service = Service(ip: nat, port: nat)

  predicate SameService(a: Address, s: Service) {
    a.ip == s.ip && a.port == s.port
  }

  // ---------------------------------------------------------------- random choices

  /** The random numbers of one call, each cut down to the range it is drawn from. */
  type Rand = nat -> nat

  function RandInt(rnd: Rand, k: nat, max: nat): (r: nat)
    requires max > 0
    ensures r < max
  {
    rnd(k) % max
  }

  /** The place that step `i` of SelectTried draws in a bucket of `n` entries. */
  function Drawn(rnd: Rand, i: nat, n: nat): (p: nat)
    requires i < n
    ensures i <= p < n
  {
    i + RandInt(rnd, i, n - i)
  }

  /** The bucket after the first `k` exchanges of SelectTried. */
  function Shuffled(s: seq<nat>, rnd: Rand, k: nat): (r: seq<nat>)
    requires k <= |s|
    ensures |r| == |s|
  {
    if k == 0 then s
    else
      var was, p := Shuffled(s, rnd, k - 1), Drawn(rnd, k - 1, |s|);
      was[p := was[k - 1]][k - 1 := was[p]]
  }

  lemma NotShuffled(s: seq<nat>, rnd: Rand)
    ensures Shuffled(s, rnd, 0) == s
  {
  }

  lemma ShuffledNext(s: seq<nat>, rnd: Rand, i: nat)
    requires i < |s|
    ensures var was, p := Shuffled(s, rnd, i), Drawn(rnd, i, |s|);
      Shuffled(s, rnd, i + 1) == was[p := was[i]][i := was[p]]
  {
  }

  /** Of the first `k` entries, the one at place `j` was successful least recently, and no earlier one as little. */
  ghost predicate IsOldest(info: Infos, s: seq<nat>, k: nat, j: nat) {
    && j < k <= |s| && (forall l :: 0 <= l < k ==> s[l] in info)
    && (forall l :: 0 <= l < k ==> info[s[j]].lastSuccess <= info[s[l]].lastSuccess)
    && (forall l :: 0 <= l < j ==> info[s[j]].lastSuccess < info[s[l]].lastSuccess)
  }

  lemma StillOldest(info: Infos, s: seq<nat>, r: seq<nat>, i: nat, j: nat)
    requires IsOldest(info, s, i, j) && |r| == |s| && forall l :: 0 <= l < i ==> r[l] == s[l]
    ensures IsOldest(info, r, i, j)
  {
  }

  /** One more entry is looked at. */
  lemma OldestNext(info: Infos, s: seq<nat>, i: nat, j: nat)
    requires i < |s| && s[i] in info && (i > 0 ==> IsOldest(info, s, i, j))
    ensures i == 0 ==> IsOldest(info, s, 1, 0)
    ensures i > 0 ==> s[j] in info && IsOldest(info, s, i + 1, if info[s[i]].lastSuccess < info[s[j]].lastSuccess then i else j)
  {
  }

  /** How many entries SelectTried looks at. */
  function Inspected(n: nat): nat {
    if n < 4 then n else 4
  }

  /** SelectTried names place `pos`: the one that the oldest entry was drawn from, before it was put in front. */
  ghost predicate Names(info: Infos, s: seq<nat>, rnd: Rand, pos: int) {
    var k := Inspected(|s|);
    exists j: nat :: IsOldest(info, Shuffled(s, rnd, k), k, j) && pos == Drawn(rnd, j, |s|)
  }

  /** `v` is the entry at the named place of the shuffled bucket. */
  ghost predicate Evictee(info: Infos, s: seq<nat>, rnd: Rand, v: nat) {
    exists pos: nat :: pos < |s| && Names(info, s, rnd, pos) && v == Shuffled(s, rnd, Inspected(|s|))[pos]
  }

  lemma EvicteeNamed(info: Infos, info': Infos, s: seq<nat>, rnd: Rand, pos: nat)
    requires pos < |s| && Names(info, s, rnd, pos)
    requires info.Keys == info'.Keys && forall n :: n in info ==> info[n].lastSuccess == info'[n].lastSuccess
    ensures Evictee(info', s, rnd, Shuffled(s, rnd, Inspected(|s|))[pos])
  {
    hide Shuffled;
    var k := Inspected(|s|);
    var j: nat :| IsOldest(info, Shuffled(s, rnd, k), k, j) && pos == Drawn(rnd, j, |s|);
    assert IsOldest(info', Shuffled(s, rnd, k), k, j);
    assert Names(info', s, rnd, pos);
  }

  /** The entry at the named place is the oldest of those inspected if and only if the draw left it in its place. */
  lemma NamesOldestIff(info: Infos, s: seq<nat>, rnd: Rand, j: nat)
    requires NoDuplicates(s) && IsOldest(info, Shuffled(s, rnd, Inspected(|s|)), Inspected(|s|), j)
    ensures var r := Shuffled(s, rnd, Inspected(|s|));
      r[Drawn(rnd, j, |s|)] == r[j] <==> rnd(j) % (|s| - j) == 0
  {
    ShuffledDistinct(s, rnd, Inspected(|s|));
  }

  lemma {:induction false} ShuffledDistinct(s: seq<nat>, rnd: Rand, k: nat)
    requires NoDuplicates(s) && k <= |s|
    ensures NoDuplicates(Shuffled(s, rnd, k))
  {
    hide Drawn;
    if k > 0 {
      ShuffledDistinct(s, rnd, k - 1);
    }
  }

  /** Two entries, the second successful less recently: it is drawn first, and the other one is named. */
  lemma OldestNotNamed(info: Infos, rnd: Rand)
    requires 1 in info && 2 in info && info[2].lastSuccess < info[1].lastSuccess && rnd(0) == 1
    ensures Shuffled([1, 2], rnd, 2) == [2, 1] && Names(info, [1, 2], rnd, 1)
  {
    assert Shuffled([1, 2], rnd, 0) == [1, 2] && Drawn(rnd, 0, 2) == 1 && Drawn(rnd, 1, 2) == 1;
    assert Shuffled([1, 2], rnd, 1) == [2, 1];
    assert Shuffled([1, 2], rnd, 2) == [2, 1];
    assert IsOldest(info, Shuffled([1, 2], rnd, 2), 2, 0);
  }

  /** Four random places among `n`. */
  function Places(rnd: Rand, n: nat): (s: set<nat>)
    requires n > 0
    ensures s != {} && forall i :: i in s ==> i < n
  {
    {RandInt(rnd, 1, n), RandInt(rnd, 2, n), RandInt(rnd, 3, n), RandInt(rnd, 4, n)}
  }

  /** The ids at those of the first `k` places that are in `places`. */
  function IdsAt(ids: seq<nat>, places: set<nat>, k: nat): set<nat>
    requires k <= |ids|
  {
    set i | 0 <= i < k && i in places :: ids[i]
  }

  /** The entries at four random places of a new bucket, in the order of their ids. */
  function Sample(s: set<nat>, rnd: Rand): set<nat> {
    var ids := Ascending(s);
    if ids == [] then {} else IdsAt(ids, Places(rnd, |ids|), |ids|)
  }

  lemma NoIds(ids: seq<nat>, places: set<nat>)
    ensures IdsAt(ids, places, 0) == {}
  {
  }

  lemma SomeId(ids: seq<nat>, places: set<nat>)
    requires places != {} && forall i :: i in places ==> i < |ids|
    ensures IdsAt(ids, places, |ids|) != {}
  {
    var i :| i in places;
    assert ids[i] in IdsAt(ids, places, |ids|);
  }

  lemma NextId(ids: seq<nat>, places: set<nat>, k: nat)
    requires k < |ids| && forall i, j :: 0 <= i < j < |ids| ==> ids[i] < ids[j]
    ensures IdsAt(ids, places, k + 1) == IdsAt(ids, places, k) + if k in places then {ids[k]} else {}
    ensures forall m :: m in IdsAt(ids, places, k) ==> m < ids[k]
  {
  }

  lemma FirstSeenNext(info: Infos, sample: set<nat>, n: nat, m: nat)
    requires m in info && (sample != {} ==> IsFirstSeen(info, sample, n)) && forall x :: x in sample ==> x < m
    ensures sample == {} ==> IsFirstSeen(info, sample + {m}, m)
    ensures sample != {} ==>
      n in info && IsFirstSeen(info, sample + {m}, if info[m].addr.time < info[n].addr.time then m else n)
  {
  }

  /** Looking at the id at place `k` of a bucket. */
  lemma SampleStep(info: Infos, s: set<nat>, places: set<nat>, k: nat, n: nat)
    requires k < |Ascending(s)| && forall m :: m in s ==> m in info
    requires IdsAt(Ascending(s), places, k) != {} ==> IsFirstSeen(info, IdsAt(Ascending(s), places, k), n)
    ensures var ids := Ascending(s);
      var seen, seen' := IdsAt(ids, places, k), IdsAt(ids, places, k + 1);
      && ids[k] in s
      && (k !in places ==> seen' == seen)
      && (k in places ==> seen' != {})
      && (k in places && seen == {} ==> IsFirstSeen(info, seen', ids[k]))
      && (k in places && seen != {} ==>
            n in info && IsFirstSeen(info, seen', if info[ids[k]].addr.time < info[n].addr.time then ids[k] else n))
  {
    hide IsFirstSeen, IdsAt, Ascending;
    AscendingLists(s);
    var ids := Ascending(s);
    assert ids[k] in ids;
    NextId(ids, places, k);
    if k in places {
      FirstSeenNext(info, IdsAt(ids, places, k), n, ids[k]);
    }
  }

  lemma FirstListed(s: set<nat>)
    requires s != {}
    ensures |Ascending(s)| > 0 && Ascending(s)[0] in s
  {
    AscendingLists(s);
    assert Ascending(s)[0] in Ascending(s);
  }

  /** Of the entries in `sample`, `n` was seen least recently; of several, it has the smallest id. */
  ghost predicate IsFirstSeen(info: Infos, sample: set<nat>, n: nat) {
    && n in sample && (forall m :: m in sample ==> m in info)
    && (forall m :: m in sample ==> info[n].addr.time <= info[m].addr.time)
    && (forall m :: m in sample && m < n ==> info[n].addr.time < info[m].addr.time)
  }

  /** Who leaves a full new bucket: a terrible entry if there is one, otherwise the first seen of the sample. */
  ghost predicate Sheds(info: Infos, s: set<nat>, now: int, rnd: Rand, victim: nat) {
    && victim in s && (forall n :: n in s ==> n in info)
    && if exists n :: n in s && IsTerrible(info[n], now) then IsTerrible(info[victim], now)
       else IsFirstSeen(info, Sample(s, rnd), victim)
  }

  lemma ShedsSame(info: Infos, info': Infos, x: nat, s: set<nat>, now: int, rnd: Rand, victim: nat)
    requires Sheds(info, s, now, rnd, victim) && x !in s
    requires forall n :: n in info && n != x ==> n in info' && info'[n] == info[n]
    ensures Sheds(info', s, now, rnd, victim)
  {
    hide IsTerrible, Sample;
    SampleInside(s, rnd);
  }

  lemma SampleInside(s: set<nat>, rnd: Rand)
    ensures Sample(s, rnd) <= s
  {
    hide Ascending;
    AscendingLists(s);
  }

  // ---------------------------------------------------------------- single table steps

  /** Entries and random vector with positions `i` and `j` exchanged. */
  function SwappedInfo(info: Infos, random: seq<nat>, i: nat, j: nat): Infos
    requires i < |random| && j < |random| && random[i] in info && random[j] in info
  {
    if i == j then info
    else
      var first := info[random[i] := info[random[i]].(randomPos := j)];
      first[random[j] := first[random[j]].(randomPos := i)]
  }

  lemma SwapKeeps(info: Infos, random: seq<nat>, i: nat, j: nat)
    requires RandomOk(info, random) && i < |random| && j < |random|
    ensures RandomOk(SwappedInfo(info, random, i, j), random[i := random[j]][j := random[i]])
    ensures SameStats(SwappedInfo(info, random, i, j), info)
  {
    if i != j {
      assert info[random[i]].randomPos == i && info[random[j]].randomPos == j;
    }
  }

  /** Erasing an id that sits last in the random vector. */
  lemma EraseLast(info: Infos, random: seq<nat>, addr: map<nat, nat>)
    requires RandomOk(info, random) && AddrOk(info, addr) && random != []
    ensures var n := random[|random| - 1];
      RandomOk(info - {n}, random[..|random| - 1]) && AddrOk(info - {n}, addr - {info[n].addr.ip})
  {
    var n := random[|random| - 1];
    assert info[n].randomPos == |random| - 1;
    forall m | m in info && m != n
      ensures info[m].randomPos < |random| - 1
    {
      assert random[info[m].randomPos] == m;
    }
  }

  /** An entry may change in place as long as it keeps its network address and random position. */
  lemma Positioned(info: Infos, random: seq<nat>, addr: map<nat, nat>, n: nat, i: Info)
    requires RandomOk(info, random) && AddrOk(info, addr) && n in info
    requires i.addr.ip == info[n].addr.ip && i.randomPos == info[n].randomPos
    ensures RandomOk(info[n := i], random) && AddrOk(info[n := i], addr)
  {
  }

  /** The entries after one bucket reference to `n` is given up. */
  function AfterDrop(info: Infos, n: nat): Infos
    requires n in info
  {
    if info[n].refCount == 1 then info - {n} else info[n := info[n].(refCount := info[n].refCount - 1)]
  }

  lemma DropRefs(info: Infos, untried: seq<set<nat>>, owed: Option<nat>, b: nat, n: nat)
    requires NewBucketsOk(info, untried) && RefsOk(info, untried, owed)
    requires b < BUCKETS && n in untried[b] && owed != Some(n)
    ensures NewBucketsOk(AfterDrop(info, n), untried[b := untried[b] - {n}])
    ensures RefsOk(AfterDrop(info, n), untried[b := untried[b] - {n}], owed)
  {
    hide Holders;
    HoldersDrop(untried, b, n);
    assert !info[n].inTried;
    if info[n].refCount == 1 {
      OnlyHolder(untried, b, n);
    } else {
      assert |Holders(untried, n)| >= 2;
    }
  }

  lemma DropTried(h: Hasher, key: nat, info: Infos, tried: seq<seq<nat>>, n: nat)
    requires TriedOk(h, key, info, tried) && n in info && !info[n].inTried
    ensures TriedOk(h, key, AfterDrop(info, n), tried)
  {
    forall b: nat | b < BUCKETS
      ensures TriedBucketOk(h, key, AfterDrop(info, n), tried[b], b)
    {
      assert TriedBucketOk(h, key, info, tried[b], b);
    }
  }

  lemma DropCounts(t: Tables, n: nat)
    requires CountsOk(t) && n in t.info && !t.info[n].inTried
    ensures CountsOk(t.(info := AfterDrop(t.info, n), nNew := if t.info[n].refCount == 1 then t.nNew - 1 else t.nNew))
  {
    var info := AfterDrop(t.info, n);
    assert IdsWhere(info, true) == IdsWhere(t.info, true);
    assert IdsWhere(info, false) == if t.info[n].refCount == 1 then IdsWhere(t.info, false) - {n} else IdsWhere(t.info, false);
  }

  // ---------------------------------------------------------------- moving an address to the tried buckets

  /** The buckets below `k` without `n`, the others as they are. */
  function Cleared(untried: seq<set<nat>>, n: nat, k: nat): (r: seq<set<nat>>)
    ensures |r| == |untried|
    ensures forall b :: 0 <= b < |untried| ==> r[b] == if b < k then untried[b] - {n} else untried[b]
  {
    seq(|untried|, b requires 0 <= b < |untried| => if b < k then untried[b] - {n} else untried[b])
  }

  ghost function HoldersBelow(untried: seq<set<nat>>, n: nat, k: nat): set<nat> {
    set b: nat | b < |untried| && b < k && n in untried[b]
  }

  lemma HoldersBelowStep(untried: seq<set<nat>>, n: nat, k: nat)
    requires k < |untried|
    ensures |HoldersBelow(untried, n, k + 1)| == |HoldersBelow(untried, n, k)| + if n in untried[k] then 1 else 0
  {
    var below := HoldersBelow(untried, n, k);
    if n in untried[k] {
      assert HoldersBelow(untried, n, k + 1) == below + {k};
    } else {
      assert HoldersBelow(untried, n, k + 1) == below;
    }
  }

  /** Entry `n` as a tried entry. */
  function AsTried(info: Infos, n: nat): Infos
    requires n in info
  {
    info[n := info[n].(refCount := 0, inTried := true)]
  }

  /** Entry `v` as an entry held by a single new bucket. */
  function AsEvicted(info: Infos, v: nat): Infos
    requires v in info
  {
    info[v := info[v].(refCount := 1, inTried := false)]
  }

  /** Once `n` is tried and in no new bucket, the new buckets are in order again, and its origin has room. */
  lemma ClearedRefs(info: Infos, untried: seq<set<nat>>, n: nat, origin: nat)
    requires NewBucketsOk(info, untried) && RefsOk(info, untried, None) && n in info
    requires origin < BUCKETS && n in untried[origin]
    ensures NewBucketsOk(AsTried(info, n), Cleared(untried, n, BUCKETS))
    ensures RefsOk(AsTried(info, n), Cleared(untried, n, BUCKETS), None)
    ensures |Cleared(untried, n, BUCKETS)[origin]| < BUCKET_SIZE
  {
    hide Holders;
    var u := Cleared(untried, n, BUCKETS);
    forall b | 0 <= b < BUCKETS
      ensures |u[b]| <= |untried[b]| && (n in untried[b] ==> |u[b]| < |untried[b]|)
    {
      CardinalitySubset(u[b], untried[b]);
    }
    forall m | m in info && m != n
      ensures Holders(u, m) == Holders(untried, m)
    {
      ClearedHolders(untried, n, m);
    }
  }

  lemma ClearedHolders(untried: seq<set<nat>>, n: nat, m: nat)
    requires m != n
    ensures Holders(Cleared(untried, n, BUCKETS), m) == Holders(untried, m)
  {
  }

  /** A tried entry may go back to a new bucket that has room. */
  lemma EvictedRefs(info: Infos, untried: seq<set<nat>>, v: nat, b: nat)
    requires NewBucketsOk(info, untried) && RefsOk(info, untried, None) && v in info && info[v].inTried
    requires b < BUCKETS && |untried[b]| < BUCKET_SIZE
    ensures NewBucketsOk(AsEvicted(info, v), untried[b := untried[b] + {v}])
    ensures RefsOk(AsEvicted(info, v), untried[b := untried[b] + {v}], None)
  {
    hide Holders;
    assert v !in untried[b];
    HoldersAdd(untried, b, v);
    assert Holders(untried, v) == {} by {
      HeldNowhere(untried, v);
    }
  }

  lemma HeldNowhere(untried: seq<set<nat>>, v: nat)
    requires forall b :: 0 <= b < |untried| ==> v !in untried[b]
    ensures Holders(untried, v) == {}
  {
  }

  function Put(bucket: seq<nat>, pos: nat, n: nat): seq<nat>
    requires pos < |bucket|
  {
    bucket[pos := n]
  }

  lemma TriedInsert(h: Hasher, key: nat, info: Infos, tried: seq<seq<nat>>, n: nat)
    requires TriedOk(h, key, info, tried) && n in info && !info[n].inTried
    requires |tried[TriedBucket(h, key, info[n].addr)]| < BUCKET_SIZE
    ensures var kb := TriedBucket(h, key, info[n].addr);
      TriedOk(h, key, AsTried(info, n), tried[kb := tried[kb] + [n]])
  {
    var kb := TriedBucket(h, key, info[n].addr);
    var tried' := tried[kb := tried[kb] + [n]];
    forall b: nat | b < BUCKETS
      ensures TriedBucketOk(h, key, AsTried(info, n), tried'[b], b)
    {
      assert TriedBucketOk(h, key, info, tried[b], b);
    }
  }

  lemma TriedReplace(h: Hasher, key: nat, info: Infos, tried: seq<seq<nat>>, n: nat, pos: nat)
    requires TriedOk(h, key, info, tried) && n in info && !info[n].inTried
    requires pos < |tried[TriedBucket(h, key, info[n].addr)]|
    ensures var kb := TriedBucket(h, key, info[n].addr); var v := tried[kb][pos];
      && v in info && v != n && info[v].inTried
      && TriedOk(h, key, AsEvicted(AsTried(info, n), v), tried[kb := Put(tried[kb], pos, n)])
  {
    var kb := TriedBucket(h, key, info[n].addr);
    assert TriedBucketOk(h, key, info, tried[kb], kb);
    var v := tried[kb][pos];
    var info' := AsEvicted(AsTried(info, n), v);
    var tried' := tried[kb := Put(tried[kb], pos, n)];
    forall b: nat | b < BUCKETS
      ensures TriedBucketOk(h, key, info', tried'[b], b)
    {
      assert TriedBucketOk(h, key, info, tried[b], b);
    }
    forall m | m in info' && info'[m].inTried && m != n
      ensures m in tried'[TriedBucket(h, key, info'[m].addr)]
    {
      var b := TriedBucket(h, key, info[m].addr);
      var i :| 0 <= i < |tried[b]| && tried[b][i] == m;
      assert tried'[b][i] == m;
    }
    assert tried'[kb][pos] == n;
  }

  /** The place that `k` exchanges with when `i` and `j` are exchanged. */
  function Other(k: nat, i: nat, j: nat): nat {
    if k == i then j else if k == j then i else k
  }

  lemma SwapAt(s: seq<nat>, i: nat, j: nat, k: nat)
    requires i < |s| && j < |s| && k < |s|
    ensures s[i := s[j]][j := s[i]][k] == s[Other(k, i, j)]
  {
  }

  lemma SwapMembers(s: seq<nat>, i: nat, j: nat)
    requires i < |s| && j < |s|
    ensures multiset(s[i := s[j]][j := s[i]]) == multiset(s)
    ensures forall n :: n in s[i := s[j]][j := s[i]] <==> n in s
  {
    var r := s[i := s[j]][j := s[i]];
    forall n
      ensures n in r <==> n in s
    {
      assert n in r <==> n in multiset(r);
      assert n in s <==> n in multiset(s);
    }
  }

  /** Exchanging two places in a bucket keeps it in order. */
  lemma SwapTried(h: Hasher, key: nat, info: Infos, bucket: seq<nat>, b: nat, i: nat, j: nat)
    requires TriedBucketOk(h, key, info, bucket, b) && i < |bucket| && j < |bucket|
    ensures TriedBucketOk(h, key, info, bucket[i := bucket[j]][j := bucket[i]], b)
  {
    var s := bucket[i := bucket[j]][j := bucket[i]];
    forall k: nat | k < |s|
      ensures s[k] == bucket[Other(k, i, j)]
    {
      SwapAt(bucket, i, j, k);
    }
    hide TriedBucket;
  }

  lemma TriedCounts(t: Tables, n: nat)
    requires CountsOk(t) && n in t.info && !t.info[n].inTried
    ensures CountsOk(t.(info := AsTried(t.info, n), nTried := t.nTried + 1, nNew := t.nNew - 1))
  {
    assert IdsWhere(AsTried(t.info, n), true) == IdsWhere(t.info, true) + {n};
    assert IdsWhere(AsTried(t.info, n), false) == IdsWhere(t.info, false) - {n};
  }

  lemma EvictedCounts(t: Tables, v: nat)
    requires CountsOk(t) && v in t.info && t.info[v].inTried
    ensures CountsOk(t.(info := AsEvicted(t.info, v), nTried := t.nTried - 1, nNew := t.nNew + 1))
  {
    assert IdsWhere(AsEvicted(t.info, v), true) == IdsWhere(t.info, true) - {v};
    assert IdsWhere(AsEvicted(t.info, v), false) == IdsWhere(t.info, false) + {v};
  }

  /** The tables after `n` moved to a tried bucket with room. */
  function Promoted(h: Hasher, key: nat, t: Tables, n: nat): Tables
    requires n in t.info && |t.tried| == BUCKETS
  {
    var kb := TriedBucket(h, key, t.info[n].addr);
    t.(info := AsTried(t.info, n), untried := Cleared(t.untried, n, BUCKETS),
       tried := t.tried[kb := t.tried[kb] + [n]], nTried := t.nTried + 1, nNew := t.nNew - 1)
  }

  /** The tables after `n` took the place `pos` of another entry, which went to new bucket `ub`. */
  function Exchanged(h: Hasher, key: nat, t: Tables, n: nat, pos: nat, ub: nat): Tables
    requires n in t.info && |t.tried| == BUCKETS && pos < |t.tried[TriedBucket(h, key, t.info[n].addr)]|
    requires t.tried[TriedBucket(h, key, t.info[n].addr)][pos] in t.info && ub < |t.untried|
  {
    var kb := TriedBucket(h, key, t.info[n].addr);
    var v := t.tried[kb][pos];
    var u := Cleared(t.untried, n, BUCKETS);
    t.(info := AsEvicted(AsTried(t.info, n), v), untried := u[ub := u[ub] + {v}],
       tried := t.tried[kb := Put(t.tried[kb], pos, n)])
  }

  lemma Shapes(h: Hasher, key: nat, t: Tables, owed: Option<nat>)
    requires Linked(h, key, t, owed)
    ensures |t.tried| == BUCKETS && |t.untried| == BUCKETS
  {
  }

  lemma PromotedLinked(h: Hasher, key: nat, t: Tables, n: nat, origin: nat)
    requires Linked(h, key, t, None) && n in t.info && !t.info[n].inTried
    requires origin < BUCKETS && n in t.untried[origin]
    requires |t.tried[TriedBucket(h, key, t.info[n].addr)]| < BUCKET_SIZE
    ensures Linked(h, key, Promoted(h, key, t, n), None)
  {
    hide RandomOk, AddrOk, TriedOk, NewBucketsOk, RefsOk, CountsOk, Cleared;
    Shapes(h, key, t, None);
    Positioned(t.info, t.random, t.addr, n, AsTried(t.info, n)[n]);
    ClearedRefs(t.info, t.untried, n, origin);
    TriedInsert(h, key, t.info, t.tried, n);
    TriedCounts(t, n);
    CountsFrame(t.(info := AsTried(t.info, n), nTried := t.nTried + 1, nNew := t.nNew - 1), Promoted(h, key, t, n));
  }

  lemma ExchangedLinked(h: Hasher, key: nat, t: Tables, n: nat, origin: nat, pos: nat, ub: nat)
    requires Linked(h, key, t, None) && n in t.info && !t.info[n].inTried
    requires origin < BUCKETS && n in t.untried[origin]
    requires pos < |t.tried[TriedBucket(h, key, t.info[n].addr)]|
    requires ub < BUCKETS && |Cleared(t.untried, n, BUCKETS)[ub]| < BUCKET_SIZE
    ensures var v := t.tried[TriedBucket(h, key, t.info[n].addr)][pos]; v in t.info && v != n && t.info[v].inTried
    ensures Linked(h, key, Exchanged(h, key, t, n, pos, ub), None)
  {
    hide RandomOk, AddrOk, TriedOk, NewBucketsOk, RefsOk, CountsOk, TriedBucket, Cleared;
    Shapes(h, key, t, None);
    TriedReplace(h, key, t.info, t.tried, n, pos);
    var v := t.tried[TriedBucket(h, key, t.info[n].addr)][pos];
    var info1 := AsTried(t.info, n);
    Positioned(t.info, t.random, t.addr, n, info1[n]);
    Positioned(info1, t.random, t.addr, v, AsEvicted(info1, v)[v]);
    ClearedRefs(t.info, t.untried, n, origin);
    EvictedRefs(info1, Cleared(t.untried, n, BUCKETS), v, ub);
    TriedCounts(t, n);
    var t1 := t.(info := info1, nTried := t.nTried + 1, nNew := t.nNew - 1);
    EvictedCounts(t1, v);
    CountsFrame(t1.(info := AsEvicted(info1, v), nTried := t.nTried, nNew := t.nNew), Exchanged(h, key, t, n, pos, ub));
  }

  lemma CountsFrame(t: Tables, t': Tables)
    requires CountsOk(t) && t'.info == t.info && t'.nTried == t.nTried && t'.nNew == t.nNew && t'.idCount == t.idCount
    ensures CountsOk(t')
  {
  }

  // ---------------------------------------------------------------- changing, adding and referring to one entry

  function Rotated(b: nat, shift: nat): (r: nat)
    ensures r < BUCKETS
  {
    (b + shift) % BUCKETS
  }

  /** `i` may stand in for `was` in every table. */
  predicate SamePlace(i: Info, was: Info) {
    && i.addr.ip == was.addr.ip && i.addr.port == was.addr.port
    && i.refCount == was.refCount && i.inTried == was.inTried && i.randomPos == was.randomPos
  }

  lemma UpdatedLinked(h: Hasher, key: nat, t: Tables, owed: Option<nat>, n: nat, i: Info)
    requires Linked(h, key, t, owed) && n in t.info && SamePlace(i, t.info[n])
    ensures Linked(h, key, t.(info := t.info[n := i]), owed)
  {
    hide RandomOk, AddrOk, TriedOk, NewBucketsOk, RefsOk, CountsOk;
    Positioned(t.info, t.random, t.addr, n, i);
    UpdatedTried(h, key, t.info, t.tried, n, i);
    UpdatedRefs(t.info, t.untried, owed, n, i);
    UpdatedCounts(t, n, i);
  }

  lemma UpdatedRefs(info: Infos, untried: seq<set<nat>>, owed: Option<nat>, n: nat, i: Info)
    requires NewBucketsOk(info, untried) && RefsOk(info, untried, owed) && n in info
    requires i.refCount == info[n].refCount && i.inTried == info[n].inTried
    ensures NewBucketsOk(info[n := i], untried) && RefsOk(info[n := i], untried, owed)
  {
    hide Holders;
  }

  lemma UpdatedCounts(t: Tables, n: nat, i: Info)
    requires CountsOk(t) && n in t.info && i.inTried == t.info[n].inTried
    ensures CountsOk(t.(info := t.info[n := i]))
  {
    assert IdsWhere(t.info[n := i], true) == IdsWhere(t.info, true);
    assert IdsWhere(t.info[n := i], false) == IdsWhere(t.info, false);
  }

  lemma UpdatedTried(h: Hasher, key: nat, info: Infos, tried: seq<seq<nat>>, n: nat, i: Info)
    requires TriedOk(h, key, info, tried) && n in info
    requires i.addr.ip == info[n].addr.ip && i.addr.port == info[n].addr.port && i.inTried == info[n].inTried
    ensures TriedOk(h, key, info[n := i], tried)
  {
    forall b: nat | b < BUCKETS
      ensures TriedBucketOk(h, key, info[n := i], tried[b], b)
    {
      assert TriedBucketOk(h, key, info, tried[b], b);
    }
  }

  /** The tables with a new entry `i` that is not in any bucket yet. */
  function Added(t: Tables, i: Info): Tables {
    var n := t.idCount;
    t.(info := t.info[n := i.(randomPos := |t.random|, refCount := 1)], addr := t.addr[i.addr.ip := n],
       random := t.random + [n], nNew := t.nNew + 1, idCount := n + 1)
  }

  lemma AddedLinked(h: Hasher, key: nat, t: Tables, i: Info)
    requires Linked(h, key, t, None) && i.addr.ip !in t.addr && !i.inTried
    ensures Linked(h, key, Added(t, i), Some(t.idCount)) && t.idCount !in t.info
  {
    hide RandomOk, AddrOk, TriedOk, NewBucketsOk, RefsOk, CountsOk;
    AddedCounts(t, i);
    AddedPlaces(t, i);
    AddedTried(h, key, t, i);
    AddedRefs(t, i);
  }

  lemma AddedCounts(t: Tables, i: Info)
    requires CountsOk(t) && !i.inTried
    ensures t.idCount !in t.info && CountsOk(Added(t, i))
  {
    assert t.idCount !in t.info;
    IdsAdd(t.info, t.idCount, i.(randomPos := |t.random|, refCount := 1));
  }

  lemma IdsAdd(info: Infos, n: nat, i: Info)
    requires n !in info && !i.inTried
    ensures IdsWhere(info[n := i], true) == IdsWhere(info, true)
    ensures IdsWhere(info[n := i], false) == IdsWhere(info, false) + {n}
  {
  }

  lemma AddedPlaces(t: Tables, i: Info)
    requires RandomOk(t.info, t.random) && AddrOk(t.info, t.addr) && t.idCount !in t.info && i.addr.ip !in t.addr
    ensures RandomOk(Added(t, i).info, Added(t, i).random) && AddrOk(Added(t, i).info, Added(t, i).addr)
  {
  }

  lemma AddedTried(h: Hasher, key: nat, t: Tables, i: Info)
    requires TriedOk(h, key, t.info, t.tried) && t.idCount !in t.info && !i.inTried
    ensures TriedOk(h, key, Added(t, i).info, t.tried)
  {
    forall b: nat | b < BUCKETS
      ensures TriedBucketOk(h, key, Added(t, i).info, t.tried[b], b)
    {
      assert TriedBucketOk(h, key, t.info, t.tried[b], b);
    }
  }

  lemma AddedRefs(t: Tables, i: Info)
    requires NewBucketsOk(t.info, t.untried) && RefsOk(t.info, t.untried, None) && t.idCount !in t.info && !i.inTried
    ensures NewBucketsOk(Added(t, i).info, t.untried) && RefsOk(Added(t, i).info, t.untried, Some(t.idCount))
  {
    hide Holders;
    HeldNowhere(t.untried, t.idCount);
  }

  /** Entry `n` with one more reference counted. */
  function Counted(info: Infos, n: nat): Infos
    requires n in info
  {
    info[n := info[n].(refCount := info[n].refCount + 1)]
  }

  lemma CountedLinked(h: Hasher, key: nat, t: Tables, n: nat)
    requires Linked(h, key, t, None) && n in t.info && !t.info[n].inTried && t.info[n].refCount != MAX_REFS
    ensures Linked(h, key, t.(info := Counted(t.info, n)), Some(n))
  {
    hide RandomOk, AddrOk, Holders;
    Positioned(t.info, t.random, t.addr, n, Counted(t.info, n)[n]);
    UpdatedTried(h, key, t.info, t.tried, n, Counted(t.info, n)[n]);
    assert forall tr :: IdsWhere(Counted(t.info, n), tr) == IdsWhere(t.info, tr);
  }

  /** Putting the counted id into a bucket with room settles the account. */
  lemma SettledLinked(h: Hasher, key: nat, t: Tables, n: nat, b: nat)
    requires Linked(h, key, t, Some(n)) && n in t.info && !t.info[n].inTried
    requires b < BUCKETS && n !in t.untried[b] && |t.untried[b]| < BUCKET_SIZE
    ensures Linked(h, key, t.(untried := t.untried[b := t.untried[b] + {n}]), None)
  {
    hide RandomOk, AddrOk, TriedOk, Holders;
    HoldersAdd(t.untried, b, n);
  }

  /** What an announcement changes in an entry that is already known. */
  function Refreshed(i: Info, a: Address, penalty: int, now: int): Info {
    var interval := if now - a.time < DAY then 60 * 60 else DAY;
    var stale := a.time != 0 && (i.addr.time == 0 || i.addr.time < a.time - interval - penalty);
    var time := if stale then Penalized(a.time, penalty) else i.addr.time;
    i.(addr := i.addr.(time := time, services := i.addr.services + a.services))
  }

  /**
   What an announcement does to a known entry, in numbers: services are added; the time moves, to the announced one less
   the penalty, only if there was none or the new one is ahead by the penalty and an hour (a day if the peer
   was not seen within the last day).
   */
  lemma RefreshedMeans(i: Info, a: Address, penalty: int, now: int)
    ensures var r := Refreshed(i, a, penalty, now);
      && r == i.(addr := r.addr) && r.addr.ip == i.addr.ip && r.addr.port == i.addr.port
      && i.addr.services <= r.addr.services && a.services <= r.addr.services && r.addr.services <= i.addr.services + a.services
      && r.addr.time == if a.time != 0 && (i.addr.time == 0 ||
                                           i.addr.time + (if now - a.time < 86400 then 3600 else 86400) + penalty < a.time)
                        then (if a.time > penalty then a.time - penalty else 0) % 0x1_0000_0000 else i.addr.time
  {
  }

  function Penalized(time: nat, penalty: int): nat {
    U32(if time - penalty < 0 then 0 else time - penalty)
  }

  class Manager {
    const hasher: Hasher
    var key: nat
    var info: Infos
    var addr: map<nat, nat>
    var random: seq<nat>
    var tried: seq<seq<nat>>
    var untried: seq<set<nat>>
    var nTried: int
    var nNew: int
    var idCount: nat

    ghost function State(): Tables
      reads this
    {
      Tables(info, addr, random, tried, untried, nTried, nNew, idCount)
    }

    ghost predicate LinkedNow(owed: Option<nat>)
      reads this
    {
      Linked(hasher, key, State(), owed)
    }

    ghost predicate Valid()
      reads this
    {
      Consistent(hasher, key, State())
    }

    constructor (h: Hasher, k: nat)
      ensures Valid() && info == map[] && hasher == h && key == k
    {
      hasher, key := h, k;
      info, addr, random, nTried, nNew, idCount := map[], map[], [], 0, 0, 0;
      tried := seq(BUCKETS, _ => []);
      untried := seq(BUCKETS, _ => {});
      new;
      assert IdsWhere(info, true) == {} && IdsWhere(info, false) == {};
    }

    /** CAddrMan::Find, giving the id. */
    method Find(ip: nat) returns (r: Option<nat>)
      ensures r == if ip in addr && addr[ip] in info then Some(addr[ip]) else None
    {
      if ip !in addr || addr[ip] !in info {
        return None;
      }
      return Some(addr[ip]);
    }

    method SwapRandom(i: nat, j: nat)
      requires RandomOk(info, random) && i < |random| && j < |random|
      modifies this`info, this`random
      ensures RandomOk(info, random) && SameStats(info, old(info))
      ensures random == old(random)[i := old(random)[j]][j := old(random)[i]]
    {
      SwapKeeps(info, random, i, j);
      if i == j {
        assert random[i := random[j]][j := random[i]] == random;
        return;
      }
      var id1, id2 := random[i], random[j];
      info := info[id1 := info[id1].(randomPos := j)];
      info := info[id2 := info[id2].(randomPos := i)];
      random := random[i := id2][j := id1];
    }

    /** Take an entry without references out of the random vector, the address map and the entry map. */
    method Delete(n: nat)
      requires RandomOk(info, random) && AddrOk(info, addr) && n in info
      modifies this`info, this`random, this`addr, this`nNew
      ensures RandomOk(info, random) && AddrOk(info, addr)
      ensures SameStats(info, old(info) - {n})
      ensures addr == old(addr) - {old(info)[n].addr.ip} && nNew == old(nNew) - 1
    {
      assert info[n].randomPos < |random|;
      var ip := info[n].addr.ip;
      SwapRandom(info[n].randomPos, |random| - 1);
      SameStatsFields(info, old(info), n);
      SameStatsAddr(old(info), info, addr);
      assert random[|random| - 1] == n;
      EraseLast(info, random, addr);
      random := random[..|random| - 1];
      addr := addr - {ip};
      info := info - {n};
      nNew := nNew - 1;
    }

    /** Give up the reference that bucket `b` holds to `n`. */
    method DropRef(b: nat, n: nat, ghost owed: Option<nat>)
      requires LinkedNow(owed) && b < BUCKETS && n in untried[b] && owed != Some(n)
      modifies this`info, this`random, this`addr, this`nNew, this`untried
      ensures LinkedNow(owed)
      ensures untried == old(untried)[b := old(untried)[b] - {n}]
      ensures n in old(info) && SameStats(info, AfterDrop(old(info), n))
      ensures addr == if n in info then old(addr) else old(addr) - {old(info)[n].addr.ip}
    {
      hide RandomOk, AddrOk, TriedOk, NewBucketsOk, RefsOk, CountsOk;
      ghost var t := State();
      DropLinked(hasher, key, t, owed, b, n);
      Positioned(info, random, addr, n, info[n].(refCount := info[n].refCount - 1));
      if info[n].refCount == 1 {
        Delete(n);
        untried := untried[b := untried[b] - {n}];
      } else {
        info := info[n := info[n].(refCount := info[n].refCount - 1)];
        untried := untried[b := untried[b] - {n}];
      }
      DroppedLinked(hasher, key, t, owed, b, n, State());
    }

    /** The new bucket `b`, if it exists. */
    ghost function Bucket(b: nat): set<nat>
      reads this
    {
      if b < |untried| then untried[b] else {}
    }

    /** Look for an entry of bucket `b` that can just be deleted. */
    method FindTerrible(b: nat, now: int) returns (r: Option<nat>)
      requires LinkedNowBucket(b)
      ensures r.Some? <==> exists n :: n in untried[b] && IsTerrible(info[n], now)
      ensures r.Some? ==> r.value in untried[b] && IsTerrible(info[r.value], now)
    {
      hide IsTerrible;
      AscendingLists(untried[b]);
      var ids := Ascending(untried[b]);
      for k := 0 to |ids|
        invariant forall i :: 0 <= i < k ==> !IsTerrible(info[ids[i]], now)
      {
        assert ids[k] in untried[b];
        if IsTerrible(info[ids[k]], now) {
          return Some(ids[k]);
        }
      }
      return None;
    }

    /** Every id in bucket `b` has an entry. */
    ghost predicate LinkedNowBucket(b: nat)
      reads this
    {
      b < |untried| && forall n :: n in untried[b] ==> n in info
    }

    /** Four random positions, and the entry least recently seen among them. */
    method OldestOfFour(b: nat, rnd: Rand) returns (oldest: nat)
      requires LinkedNowBucket(b) && untried[b] != {}
      ensures oldest in untried[b] && IsFirstSeen(info, Sample(untried[b], rnd), oldest)
    {
      hide IsFirstSeen, IdsAt, Ascending, Places;
      FirstListed(untried[b]);
      var ids := Ascending(untried[b]);
      var places := Places(rnd, |ids|);
      var found := false;
      oldest := ids[0];
      NoIds(ids, places);
      for k := 0 to |ids|
        invariant found <==> IdsAt(ids, places, k) != {}
        invariant oldest in untried[b] && (found ==> IsFirstSeen(info, IdsAt(ids, places, k), oldest))
      {
        SampleStep(info, untried[b], places, k, oldest);
        if k in places {
          if !found || info[ids[k]].addr.time < info[oldest].addr.time {
            oldest := ids[k];
          }
          found := true;
        }
      }
      SomeId(ids, places);
    }

    /** CAddrMan::ShrinkNew: one reference of bucket `b` is given up, a terrible entry's if there is one. */
    method ShrinkNew(b: nat, now: int, rnd: Rand, ghost owed: Option<nat>) returns (code: int, ghost victim: nat)
      requires LinkedNow(owed) && b < BUCKETS && untried[b] != {}
      requires owed.Some? ==> owed.value !in untried[b]
      modifies this`info, this`random, this`addr, this`nNew, this`untried
      ensures LinkedNow(owed)
      ensures victim in old(untried)[b] && victim in old(info)
      ensures untried == old(untried)[b := old(untried)[b] - {victim}]
      ensures SameStats(info, AfterDrop(old(info), victim))
      ensures addr == if victim in info then old(addr) else old(addr) - {old(info)[victim].addr.ip}
      ensures code == 0 <==> exists n :: n in old(untried)[b] && IsTerrible(old(info)[n], now)
      ensures code == 0 ==> IsTerrible(old(info)[victim], now)
      ensures code != 0 ==> code == 1 && IsFirstSeen(old(info), Sample(old(untried)[b], rnd), victim)
    {
      BucketListed(hasher, key, State(), owed, b);
      hide IsTerrible, Linked, IsFirstSeen, Sample;
      var terrible := FindTerrible(b, now);
      if terrible.Some? {
        victim := terrible.value;
        DropRef(b, terrible.value, owed);
        return 0, victim;
      }
      var oldest := OldestOfFour(b, rnd);
      victim := oldest;
      DropRef(b, oldest, owed);
      return 1, victim;
    }

    /** Remove `n` from every new bucket, counting its references down. */
    method ClearNew(n: nat)
      requires n in info && |untried| == BUCKETS
      modifies this`info, this`untried
      ensures untried == Cleared(old(untried), n, BUCKETS)
      ensures info == old(info)[n := old(info)[n].(refCount := old(info)[n].refCount - |Holders(old(untried), n)|)]
    {
      assert HoldersBelow(untried, n, 0) == {};
      for b := 0 to BUCKETS
        invariant untried == Cleared(old(untried), n, b)
        invariant n in info && info == old(info)[n := info[n]]
        invariant info[n] == old(info)[n].(refCount := old(info)[n].refCount - |HoldersBelow(old(untried), n, b)|)
      {
        HoldersBelowStep(old(untried), n, b);
        assert Cleared(old(untried), n, b + 1) == Cleared(old(untried), n, b)[b := old(untried)[b] - {n}];
        if n in untried[b] {
          untried := untried[b := untried[b] - {n}];
          info := info[n := info[n].(refCount := info[n].refCount - 1)];
        } else {
          assert untried[b] == old(untried)[b] - {n};
        }
      }
      assert HoldersBelow(old(untried), n, BUCKETS) == Holders(old(untried), n);
    }

    /** CAddrMan::SelectTried: shuffle the front of the bucket and name a place in it, if it has one. */
    method SelectTried(b: nat, rnd: Rand) returns (pos: int)
      requires b < BUCKETS && |tried| == BUCKETS && TriedBucketOk(hasher, key, info, tried[b], b)
      modifies this`tried
      ensures |tried| == BUCKETS && tried == old(tried)[b := Shuffled(old(tried)[b], rnd, Inspected(|old(tried)[b]|))]
      ensures TriedBucketOk(hasher, key, info, tried[b], b)
      ensures multiset(tried[b]) == multiset(old(tried)[b]) && forall n :: n in tried[b] <==> n in old(tried)[b]
      ensures if old(tried)[b] == [] then pos == -1 else 0 <= pos < |tried[b]| && Names(info, old(tried)[b], rnd, pos)
    {
      hide TriedBucketOk, IsOldest, Drawn, Shuffled;
      var oldest: Option<nat> := None;
      pos := -1;
      ghost var at := 0;
      ghost var s := old(tried)[b];
      NotShuffled(s, rnd);
      assert tried == old(tried)[b := s];
      var i := 0;
      while i < 4 && i < |tried[b]|
        invariant 0 <= i <= |s| && i <= 4 && tried == old(tried)[b := Shuffled(s, rnd, i)]
        invariant TriedBucketOk(hasher, key, info, tried[b], b)
        invariant multiset(tried[b]) == multiset(s) && forall n :: n in tried[b] <==> n in s
        invariant i > 0 ==>
          at < |s| && IsOldest(info, tried[b], i, at) && oldest == Some(tried[b][at]) && pos == Drawn(rnd, at, |s|)
        invariant i == 0 ==> oldest.None? && pos == -1
        decreases |tried[b]| - i
      {
        var p := Drawn(rnd, i, |tried[b]|);
        var was := tried[b];
        SwapTried(hasher, key, info, was, b, p, i);
        SwapMembers(was, p, i);
        var bucket := was[p := was[i]][i := was[p]];
        ShuffledNext(s, rnd, i);
        tried := tried[b := bucket];
        MemberListed(hasher, key, info, bucket, b, i);
        if i > 0 {
          StillOldest(info, was, bucket, i, at);
        }
        OldestNext(info, bucket, i, at);
        if oldest.None? || info[bucket[i]].lastSuccess < info[oldest.value].lastSuccess {
          oldest, pos, at := Some(bucket[i]), p, i;
        }
        i := i + 1;
      }
    }

    /** CAddrMan::MakeTried; `evicted` is the entry that had to go back to the new buckets. */
    method MakeTried(n: nat, origin: nat, rnd: Rand) returns (ghost evicted: Option<nat>, ghost ub: nat)
      requires LinkedNow(None) && n in info && !info[n].inTried && origin < BUCKETS && n in untried[origin]
      modifies this`info, this`untried, this`tried, this`nTried, this`nNew
      ensures LinkedNow(None)
      ensures var kb := TriedBucket(hasher, key, old(info)[n].addr);
        && n in tried[kb]
        && (evicted.None? <==> |old(tried)[kb]| < BUCKET_SIZE)
        && (evicted.Some? ==> evicted.value in old(tried)[kb] && evicted.value in old(info) && evicted.value != n
                              && old(info)[evicted.value].inTried
                              && Evictee(old(info), old(tried)[kb], rnd, evicted.value))
        && |tried| == BUCKETS && forall b :: 0 <= b < BUCKETS && b != kb ==> tried[b] == old(tried)[b]
      ensures info == if evicted.None? then AsTried(old(info), n) else AsEvicted(AsTried(old(info), n), evicted.value)
      ensures var cleared := Cleared(old(untried), n, BUCKETS);
        if evicted.None? then untried == cleared
        else
          var own := NewBucket(hasher, key, old(info)[evicted.value].addr, old(info)[evicted.value].source);
          && ub == (if |cleared[own]| < BUCKET_SIZE then own else origin)
          && untried == cleared[ub := cleared[ub] + {evicted.value}]
    {
      hide RandomOk, AddrOk, TriedOk, NewBucketsOk, RefsOk, CountsOk, Cleared, TriedBucket, NewBucket;
      ghost var t := State();
      RefsOfNew(hasher, key, t, n, origin);
      ClearNew(n);
      nNew := nNew - 1;
      assert info[n].refCount == 0;
      assert info == t.info[n := t.info[n].(refCount := 0)];
      var kb := TriedBucket(hasher, key, info[n].addr);
      if |tried[kb]| < BUCKET_SIZE {
        PromotedLinked(hasher, key, t, n, origin);
        tried := tried[kb := tried[kb] + [n]];
        nTried := nTried + 1;
        info := info[n := info[n].(inTried := true)];
        assert State() == Promoted(hasher, key, t, n);
        return None, 0;
      }
      evicted, ub := Exchange(n, origin, rnd, t);
    }

    /** The rest of MakeTried when the tried bucket is full. */
    method Exchange(n: nat, origin: nat, rnd: Rand, ghost t: Tables) returns (ghost evicted: Option<nat>, ghost ub: nat)
      requires Linked(hasher, key, t, None) && n in t.info && !t.info[n].inTried
      requires origin < BUCKETS && n in t.untried[origin]
      requires State() == t.(info := t.info[n := t.info[n].(refCount := 0)],
                             untried := Cleared(t.untried, n, BUCKETS), nNew := t.nNew - 1)
      requires |t.tried[TriedBucket(hasher, key, t.info[n].addr)]| >= BUCKET_SIZE
      modifies this`info, this`untried, this`tried, this`nNew
      ensures LinkedNow(None)
      ensures var kb := TriedBucket(hasher, key, t.info[n].addr);
        && |tried| == BUCKETS && (forall b :: 0 <= b < BUCKETS && b != kb ==> tried[b] == t.tried[b])
        && n in tried[kb]
        && evicted.Some? && evicted.value in t.tried[kb] && evicted.value in t.info && evicted.value != n
        && t.info[evicted.value].inTried && Evictee(t.info, t.tried[kb], rnd, evicted.value)
      ensures info == AsEvicted(AsTried(t.info, n), evicted.value)
      ensures var cleared := Cleared(t.untried, n, BUCKETS);
        var own := NewBucket(hasher, key, t.info[evicted.value].addr, t.info[evicted.value].source);
        && ub == (if |cleared[own]| < BUCKET_SIZE then own else origin)
        && untried == cleared[ub := cleared[ub] + {evicted.value}]
    {
      hide RandomOk, AddrOk, TriedOk, NewBucketsOk, RefsOk, CountsOk, Cleared, TriedBucketOk, Exchanged, TriedBucket,
        NewBucket, AsTried, AsEvicted;
      Shapes(hasher, key, t, None);
      var kb := TriedBucket(hasher, key, info[n].addr);
      BucketFrame(hasher, key, t.info, info, tried, kb);
      RefsOfNew(hasher, key, t, n, origin);
      var pos := SelectTried(kb, rnd);
      ghost var t1 := t.(tried := tried);
      ShuffledLinked(hasher, key, t, info, kb, tried);
      VictimKnown(hasher, key, t1, n, pos);
      var v := tried[kb][pos];
      EvicteeNamed(info, t.info, t.tried[kb], rnd, pos);
      var own := NewBucket(hasher, key, info[v].addr, info[v].source);
      var place := if |untried[own]| < BUCKET_SIZE then own else origin;
      ExchangedLinked(hasher, key, t1, n, origin, pos, place);
      Evict(n, kb, pos, place, t1);
      ExchangedMeans(hasher, key, t1, n, pos, place);
      assert tried[kb][pos] == n;
      return Some(v), place;
    }

    /** Move the entry at place `pos` of tried bucket `kb` to new bucket `ub`, and put `n` in its place. */
    method Evict(n: nat, kb: nat, pos: nat, ub: nat, ghost t: Tables)
      requires n in t.info && |t.tried| == |t.untried| == BUCKETS && kb == TriedBucket(hasher, key, t.info[n].addr)
      requires pos < |t.tried[kb]| && t.tried[kb][pos] in t.info && t.tried[kb][pos] != n && ub < BUCKETS
      requires State() == t.(info := t.info[n := t.info[n].(refCount := 0)],
                             untried := Cleared(t.untried, n, BUCKETS), nNew := t.nNew - 1)
      modifies this`info, this`untried, this`tried, this`nNew
      ensures State() == Exchanged(hasher, key, t, n, pos, ub)
    {
      hide Cleared, Exchanged, AsTried, AsEvicted, TriedBucket;
      var v := tried[kb][pos];
      EvictInSteps(t.info, n, v);
      ExchangedMeans(hasher, key, t, n, pos, ub);
      info := info[v := info[v].(inTried := false, refCount := 1)];
      untried := untried[ub := untried[ub] + {v}];
      nNew := nNew + 1;
      tried := tried[kb := Put(tried[kb], pos, n)];
      info := info[n := info[n].(inTried := true)];
    }

    /** The address and the port are those of an entry. */
    predicate Matches(s: Service)
      reads this
    {
      s.ip in addr && addr[s.ip] in info && SameService(info[addr[s.ip]].addr, s)
    }

    /** Look through the new buckets, from a random one on, for one that holds `n`. */
    method FindBucket(n: nat) returns (r: Option<nat>)
      requires |untried| == BUCKETS
      ensures r.None? <==> Holders(untried, n) == {}
      ensures r.Some? ==> r.value < BUCKETS && n in untried[r.value]
    {
      var start: nat :| start < BUCKETS;
      for k := 0 to BUCKETS
        invariant forall i :: 0 <= i < k ==> n !in untried[Rotated(i, start)]
      {
        var b := Rotated(k, start);
        if n in untried[b] {
          assert b in Holders(untried, n);
          return Some(b);
        }
      }
      forall b: nat | b < BUCKETS
        ensures n !in untried[b]
      {
        assert Rotated(Rotated(b, BUCKETS - start), start) == b;
      }
      return None;
    }

    /** CAddrMan::Good_; the invariant survives exactly if nothing matches or the time is positive. */
    method Good(s: Service, time: int, rnd: Rand) returns (ghost evicted: Option<nat>)
      requires Valid()
      modifies this`info, this`untried, this`tried, this`nTried, this`nNew
      ensures LinkedNow(None)
      ensures Valid() <==> !old(Matches(s)) || time > 0
      ensures !old(Matches(s)) ==> State() == old(State())
      ensures old(Matches(s)) ==> var n := addr[s.ip]; n in info && info[n] == AfterGood(old(info)[n], time)
      ensures old(Matches(s)) ==>
        var i, was := info[addr[s.ip]], old(info)[addr[s.ip]];
        && i.inTried && i.refCount == 0 && i.lastSuccess == time && i.lastTry == time && i.attempts == 0
        && i.addr == was.addr.(time := time % 0x1_0000_0000) && i.source == was.source && i.randomPos == was.randomPos
      ensures info.Keys == old(info).Keys
      ensures forall m :: m in info && !(old(Matches(s)) && m == addr[s.ip]) && evicted != Some(m) ==>
        info[m] == old(info)[m]
      ensures evicted.Some? ==>
        && evicted.value in old(info) && old(info)[evicted.value].inTried
        && info[evicted.value] == old(info)[evicted.value].(refCount := 1, inTried := false)
    {
      hide Linked, AllStatsOk;
      evicted := None;
      var found := Find(s.ip);
      if found.None? {
        return;
      }
      var n := found.value;
      if !SameService(info[n].addr, s) {
        return;
      }
      ghost var t := State();
      var i := info[n];
      var i' := i.(lastSuccess := time, lastTry := time, attempts := 0, addr := i.addr.(time := U32(time)));
      UpdatedLinked(hasher, key, t, None, n, i');
      info := info[n := i'];
      if info[n].inTried {
        GoodStats(t.info, info, n, time);
        assert i' == AfterGood(i, time) by {
          RefsOfTried(hasher, key, t, n);
        }
        return;
      }
      RefsOfUntried(hasher, key, State(), n);
      var bucket := FindBucket(n);
      ghost var ub;
      evicted, ub := MakeTried(n, bucket.value, rnd);
      assert info[n] == AfterGood(i, time);
      GoodStats(t.info, info, n, time);
    }

    /** CAddrMan::Create. */
    method Create(a: Address, source: nat) returns (n: nat)
      modifies this`info, this`addr, this`random, this`idCount
      ensures n == old(idCount) && idCount == n + 1
      ensures info == old(info)[n := NewInfo(a, source).(randomPos := |old(random)|)]
      ensures addr == old(addr)[a.ip := n] && random == old(random) + [n]
    {
      n := idCount;
      idCount := idCount + 1;
      info := info[n := NewInfo(a, source)];
      addr := addr[a.ip := n];
      info := info[n := info[n].(randomPos := |random|)];
      random := random + [n];
    }

    /** Put the counted id `n` into bucket `b`, making room there first if needed. */
    method Insert(n: nat, b: nat, now: int, rnd: Rand) returns (ghost victim: Option<nat>)
      requires LinkedNow(Some(n)) && n in info && !info[n].inTried && b < BUCKETS && n !in untried[b]
      modifies this`info, this`random, this`addr, this`nNew, this`untried
      ensures LinkedNow(None)
      ensures |untried| == BUCKETS && n in untried[b] && n in info
      ensures info[n].addr.ip in addr && addr[info[n].addr.ip] == n
      ensures victim.None? ==> info == old(info)
      ensures victim.None? <==> |old(untried)[b]| < BUCKET_SIZE
      ensures victim.Some? ==>
        && victim.value in old(untried)[b] && victim.value in old(info) && victim.value != n
        && Sheds(old(info), old(untried)[b], now, rnd, victim.value)
        && !old(info)[victim.value].inTried && SameStats(info, AfterDrop(old(info), victim.value))
    {
      hide RandomOk, AddrOk, TriedOk, RefsOk, CountsOk, IsTerrible, Sample, IsFirstSeen;
      victim := None;
      if |untried[b]| == BUCKET_SIZE {
        BucketListed(hasher, key, State(), Some(n), b);
        var code;
        ghost var v;
        code, v := ShrinkNew(b, now, rnd, Some(n));
        victim := Some(v);
        SameStatsFields(info, AfterDrop(old(info), v), n);
      }
      SettledLinked(hasher, key, State(), n, b);
      untried := untried[b := untried[b] + {n}];
      EntryKnown(hasher, key, State(), None, n);
    }

    /** Add_ for an address that is not known yet. */
    method AddNew(a: Address, source: nat, penalty: int, now: int, rnd: Rand) returns (ghost victim: Option<nat>)
      requires Valid() && a.ip !in addr
      modifies this`info, this`random, this`addr, this`nNew, this`untried, this`idCount
      ensures Valid()
      ensures a.ip in addr && addr[a.ip] == old(idCount) && old(idCount) in info && old(idCount) !in old(info)
      ensures Stat(info[old(idCount)]) == Stat(NewInfo(a.(time := Penalized(a.time, penalty)), source).(refCount := 1))
      ensures |untried| == BUCKETS && old(idCount) in untried[NewBucket(hasher, key, a, source)]
      ensures OthersKept(old(info), info, old(idCount), victim)
      ensures victim.Some? <==> |old(Bucket(NewBucket(hasher, key, a, source)))| >= BUCKET_SIZE
      ensures victim.Some? ==> Sheds(old(info), old(Bucket(NewBucket(hasher, key, a, source))), now, rnd, victim.value)
    {
      hide Linked, AllStatsOk, Sheds;
      ghost var t := State();
      ghost var i := NewInfo(a.(time := Penalized(a.time, penalty)), source);
      AddedLinked(hasher, key, t, i);
      AddedNotHeld(hasher, key, t, NewBucket(hasher, key, a, source));
      var n := Create(a, source);
      info := info[n := info[n].(addr := info[n].addr.(time := Penalized(info[n].addr.time, penalty)))];
      nNew := nNew + 1;
      var b := NewBucket(hasher, key, info[n].addr, source);
      assert n !in untried[b];
      info := info[n := info[n].(refCount := info[n].refCount + 1)];
      assert State() == Added(t, i);
      ghost var before := info;
      victim := Insert(n, b, now, rnd);
      KeptAfterInsert(t.info, before, info, n, victim);
      if victim.Some? {
        ShedsSame(before, t.info, n, t.untried[b], now, rnd, victim.value);
      }
    }

    /** Add_ for a known address; `gained` says that it got one more reference. */
    method AddKnown(n: nat, a: Address, source: nat, penalty: int, now: int, rnd: Rand)
      returns (ghost gained: bool, ghost victim: Option<nat>)
      requires Valid() && n in info && a.ip == info[n].addr.ip
      modifies this`info, this`random, this`addr, this`nNew, this`untried
      ensures Valid()
      ensures a.ip in addr && addr[a.ip] == n && n in info
      ensures OthersKept(old(info), info, n, victim)
      ensures var i := Refreshed(old(info)[n], a, penalty, now);
        && Stat(info[n]) == Stat(if gained then i.(refCount := i.refCount + 1) else i)
        && (gained <==>
              && IsNews(i, a) && !i.inTried && i.refCount < MAX_REFS && rnd(0) % Pow(2, i.refCount) == 0
              && n !in old(Bucket(NewBucket(hasher, key, a, source))))
      ensures gained ==> n in Bucket(NewBucket(hasher, key, a, source))
      ensures !gained ==> victim.None? && untried == old(untried)
      ensures victim.Some? <==> gained && |old(Bucket(NewBucket(hasher, key, a, source)))| >= BUCKET_SIZE
      ensures victim.Some? ==> Sheds(old(info), old(Bucket(NewBucket(hasher, key, a, source))), now, rnd, victim.value)
    {
      hide Linked, AllStatsOk, Sheds;
      gained, victim := false, None;
      ghost var t := State();
      var i := Refreshed(info[n], a, penalty, now);
      UpdatedLinked(hasher, key, t, None, n, i);
      RefreshedStats(info, n, i);
      EntryKnown(hasher, key, t, None, n);
      info := info[n := i];
      if !IsNews(i, a) || i.inTried || i.refCount == MAX_REFS {
        return;
      }
      RefsOfUntried(hasher, key, State(), n);
      var factor := 1;
      for k := 0 to i.refCount
        invariant factor == Pow(2, k)
      {
        factor := factor * 2;
      }
      if factor > 1 && RandInt(rnd, 0, factor) != 0 {
        return;
      }
      var b := NewBucket(hasher, key, info[n].addr, source);
      if n in untried[b] {
        return;
      }
      gained := true;
      CountedLinked(hasher, key, State(), n);
      info := info[n := info[n].(refCount := info[n].refCount + 1)];
      ghost var before := info;
      victim := Insert(n, b, now, rnd);
      KeptAfterInsert(t.info, before, info, n, victim);
      if victim.Some? {
        ShedsSame(before, t.info, n, t.untried[b], now, rnd, victim.value);
      }
    }

    /**
     CAddrMan::Add_. A routable address is known afterwards, and the result says whether it is new;
     at most one other entry (`victim`) loses a reference, or is dropped with its last one.
     */
    method Add(a: Address, source: nat, penalty: int, now: int, routable: bool, rnd: Rand)
      returns (isNew: bool, ghost gained: bool, ghost victim: Option<nat>)
      requires Valid()
      modifies this`info, this`random, this`addr, this`nNew, this`untried, this`idCount
      ensures Valid()
      ensures isNew <==> routable && a.ip !in old(addr)
      ensures !routable ==> State() == old(State())
      ensures routable ==> a.ip in addr && addr[a.ip] in info && OthersKept(old(info), info, addr[a.ip], victim)
      ensures routable && a.ip in old(addr) ==>
        var n := addr[a.ip];
        && n == old(addr)[a.ip] && n in old(info)
        && var i := Refreshed(old(info)[n], a, penalty, now);
        && Stat(info[n]) == Stat(if gained then i.(refCount := i.refCount + 1) else i)
        && (gained <==>
              && IsNews(i, a) && !i.inTried && i.refCount < MAX_REFS && rnd(0) % Pow(2, i.refCount) == 0
              && n !in old(Bucket(NewBucket(hasher, key, a, source))))
        && (gained ==> n in Bucket(NewBucket(hasher, key, a, source)))
      ensures isNew ==>
        var n := addr[a.ip];
        && n == old(idCount)
        && Stat(info[n]) == Stat(NewInfo(a.(time := Penalized(a.time, penalty)), source).(refCount := 1))
        && |untried| == BUCKETS && n in untried[NewBucket(hasher, key, a, source)]
      ensures victim.Some? <==> (isNew || gained) && |old(Bucket(NewBucket(hasher, key, a, source)))| >= BUCKET_SIZE
      ensures victim.Some? ==> Sheds(old(info), old(Bucket(NewBucket(hasher, key, a, source))), now, rnd, victim.value)
    {
      hide Linked, AllStatsOk, OthersKept, Refreshed, Sheds, StatsOk;
      victim, isNew, gained := None, false, false;
      if !routable {
        return;
      }
      AddressKnown(hasher, key, State(), None, a.ip);
      var found := Find(a.ip);
      if found.Some? {
        gained, victim := AddKnown(found.value, a, source, penalty, now, rnd);
      } else {
        isNew := true;
        victim := AddNew(a, source, penalty, now, rnd);
      }
    }

    /** CAddrMan::Attempt_; the invariant survives exactly if nothing matches or the time is not negative. */
    method Attempt(s: Service, time: int)
      requires Valid()
      modifies this`info
      ensures LinkedNow(None)
      ensures Valid() <==> !old(Matches(s)) || time >= 0
      ensures info == if !old(Matches(s)) then old(info) else
        var n := addr[s.ip];
        old(info)[n := old(info)[n].(lastTry := time, attempts := old(info)[n].attempts + 1)]
    {
      hide Linked;
      var found := Find(s.ip);
      if found.None? || !SameService(info[found.value].addr, s) {
        return;
      }
      var n := found.value;
      var i := info[n].(lastTry := time, attempts := info[n].attempts + 1);
      UpdatedLinked(hasher, key, State(), None, n, i);
      assert StatsOk(info[n]);
      info := info[n := i];
      assert StatsOk(info[n]) <==> time >= 0;
    }

    /** CAddrMan::Connected_. */
    method Connected(s: Service, time: int)
      requires Valid()
      modifies this`info
      ensures Valid()
      ensures info == if !old(Matches(s)) || time - old(info)[addr[s.ip]].addr.time <= 20 * 60 then old(info) else
        var n := addr[s.ip];
        old(info)[n := old(info)[n].(addr := old(info)[n].addr.(time := U32(time)))]
    {
      hide Linked;
      var found := Find(s.ip);
      if found.None? || !SameService(info[found.value].addr, s) {
        return;
      }
      var n := found.value;
      if time - info[n].addr.time > 20 * 60 {
        var i := info[n].(addr := info[n].addr.(time := U32(time)));
        UpdatedLinked(hasher, key, State(), None, n, i);
        RefreshedStats(info, n, i);
        info := info[n := i];
      }
    }

    /** Move a random one of the entries from place `n` on to place `n`. */
    method Draw(n: nat)
      requires RandomOk(info, random) && n < |random|
      modifies this`info, this`random
      ensures RandomOk(info, random) && SameStats(info, old(info))
      ensures |random| == |old(random)| && random[..n] == old(random)[..n] && multiset(random) == multiset(old(random))
      ensures random[n] in info
    {
      var pos :| n <= pos < |random|;
      SwapRandom(n, pos);
    }

    /**
     CAddrMan::GetAddr_: distinct entries, none of them terrible, no more than the limit; and all that
     are not terrible if the limit is not reached. Only the random order changes.
     */
    method GetAddr(now: int) returns (r: seq<Address>, ghost ids: seq<nat>)
      requires Valid()
      modifies this`info, this`random
      ensures Valid() && SameStats(info, old(info)) && multiset(random) == multiset(old(random))
      ensures |r| == |ids| <= GetAddrLimit(|random|) && NoDuplicates(ids)
      ensures |r| <= 2500 && 100 * |r| <= 23 * |random|
      ensures forall k :: 0 <= k < |r| ==>
        ids[k] in old(info) && r[k] == old(info)[ids[k]].addr && !IsTerrible(old(info)[ids[k]], now)
      ensures |r| < GetAddrLimit(|random|) ==>
        forall n :: n in old(info) && !IsTerrible(old(info)[n], now) ==> n in ids
    {
      hide IsTerrible, TriedOk, AddrOk, NewBucketsOk, RefsOk, CountsOk, AllStatsOk, StatsOk, SameStats, RandomOk,
        Gathered, NoDuplicates, GetAddrLimit;
      GatherNone(info, now);
      r, ids := [], [];
      SameStatsRefl(info);
      var limit := GetAddrLimit(|random|);
      var n := 0;
      while n < |random| && |r| < limit
        invariant 0 <= n <= |random| && |random| == |old(random)| && multiset(random) == multiset(old(random))
        invariant RandomOk(info, random) && SameStats(info, old(info))
        invariant |r| == |ids| <= limit && NoDuplicates(ids)
        invariant Gathered(old(info), random[..n], ids, now) && Reports(old(info), ids, r)
        decreases |random| - n
      {
        ghost var was := info;
        Draw(n);
        SameStatsTrans(info, was, old(info));
        assert random[..n + 1] == random[..n] + [random[n]];
        EntrySame(info, old(info), random[n], now);
        GatherStep(old(info), info, random, n, ids, now);
        if !IsTerrible(info[random[n]], now) {
          r := r + [info[random[n]].addr];
          ids := ids + [random[n]];
        }
        n := n + 1;
      }
      SameStatsLinked(hasher, key, old(State()), None, info, random);
      SameStatsStats(old(info), info);
      GatheredMeans(old(info), random[..n], ids, now);
      LimitMeans(|random|);
      if n == |random| {
        assert random[..n] == random;
        AllGathered(info, old(info), random, ids, now);
      }
    }
  }

  function GetAddrLimit(size: nat): nat {
    if 23 * size / 100 > 2500 then 2500 else 23 * size / 100
  }

  lemma LimitMeans(size: nat)
    ensures GetAddrLimit(size) <= 2500 && 100 * GetAddrLimit(size) <= 23 * size
  {
  }

  /** `ids` are the entries of `front` that are not terrible. */
  ghost predicate Gathered(info: Infos, front: seq<nat>, ids: seq<nat>, now: int) {
    && (forall k :: 0 <= k < |ids| ==> ids[k] in info && ids[k] in front && !IsTerrible(info[ids[k]], now))
    && (forall i :: 0 <= i < |front| ==> front[i] in info && (!IsTerrible(info[front[i]], now) ==> front[i] in ids))
  }

  /** `r` are the addresses of the entries `ids`. */
  ghost predicate Reports(info: Infos, ids: seq<nat>, r: seq<Address>) {
    |r| == |ids| && forall k :: 0 <= k < |r| ==> ids[k] in info && r[k] == info[ids[k]].addr
  }

  lemma GatherNone(info: Infos, now: int)
    ensures Gathered(info, [], [], now) && NoDuplicates<nat>([])
  {
  }

  lemma GatheredMeans(info: Infos, front: seq<nat>, ids: seq<nat>, now: int)
    requires Gathered(info, front, ids, now)
    ensures forall k :: 0 <= k < |ids| ==> ids[k] in info && !IsTerrible(info[ids[k]], now)
  {
  }

  lemma GatherStep(info: Infos, info': Infos, random: seq<nat>, n: nat, ids: seq<nat>, now: int)
    requires RandomOk(info', random) && n < |random| && random[n] in info
    requires Gathered(info, random[..n], ids, now) && NoDuplicates(ids)
    ensures if IsTerrible(info[random[n]], now) then Gathered(info, random[..n] + [random[n]], ids, now)
            else Gathered(info, random[..n] + [random[n]], ids + [random[n]], now) && NoDuplicates(ids + [random[n]])
  {
    hide IsTerrible;
    forall i | 0 <= i < n
      ensures random[i] != random[n]
    {
      assert info'[random[i]].randomPos == i && info'[random[n]].randomPos == n;
    }
    assert random[n] !in ids;
  }

  lemma EntrySame(info: Infos, info': Infos, n: nat, now: int)
    requires SameStats(info, info') && n in info
    ensures n in info' && info[n].addr == info'[n].addr && (IsTerrible(info[n], now) <==> IsTerrible(info'[n], now))
  {
    SameStatsFields(info, info', n);
  }

  lemma AllGathered(info: Infos, info': Infos, random: seq<nat>, ids: seq<nat>, now: int)
    requires RandomOk(info, random) && SameStats(info, info') && Gathered(info', random, ids, now)
    ensures forall n :: n in info' && !IsTerrible(info'[n], now) ==> n in ids
  {
    hide IsTerrible;
    forall n | n in info' && !IsTerrible(info'[n], now)
      ensures n in ids
    {
      assert random[info[n].randomPos] == n;
    }
  }

  lemma SameStatsRefl(info: Infos)
    ensures SameStats(info, info)
  {
  }

  lemma SameStatsTrans(a: Infos, b: Infos, c: Infos)
    requires SameStats(a, b) && SameStats(b, c)
    ensures SameStats(a, c)
  {
    forall n | n in a
      ensures Stat(a[n]) == Stat(c[n])
    {
      assert Stat(a[n]) == Stat(b[n]);
    }
  }

  /** The announcement says something the entry does not know yet. */
  predicate IsNews(i: Info, a: Address) {
    a.time != 0 && !(i.addr.time != 0 && a.time <= i.addr.time)
  }

  lemma RefreshedStats(info: Infos, n: nat, i: Info)
    requires AllStatsOk(info) && n in info && i == info[n].(addr := i.addr)
    ensures AllStatsOk(info[n := i]) && StatsOk(i)
  {
    assert StatsOk(info[n]);
  }

  lemma AddressKnown(h: Hasher, key: nat, t: Tables, owed: Option<nat>, ip: nat)
    requires Linked(h, key, t, owed)
    ensures ip in t.addr ==> t.addr[ip] in t.info && t.info[t.addr[ip]].addr.ip == ip
  {
  }

  /** All entries but `n` and the victim are as before, and the victim lost one reference. */
  ghost predicate OthersKept(info: Infos, info': Infos, n: nat, victim: Option<nat>) {
    && (forall m :: m in info && m != n && victim != Some(m) ==> m in info' && Stat(info'[m]) == Stat(info[m]))
    && (victim.Some? ==> victim.value != n && victim.value in info && !info[victim.value].inTried)
    && (victim.Some? && victim.value in info' ==>
          Stat(info'[victim.value]) == Stat(info[victim.value].(refCount := info[victim.value].refCount - 1)))
    && (victim.Some? && victim.value !in info' ==> info[victim.value].refCount == 1)
  }

  /** `before` differs from `info` in `n` only; then Insert ran. */
  lemma KeptAfterInsert(info: Infos, before: Infos, info': Infos, n: nat, victim: Option<nat>)
    requires AllStatsOk(info) && n in before && StatsOk(before[n])
    requires forall m :: m in before && m != n ==> m in info && before[m] == info[m]
    requires forall m :: m in info && m != n ==> m in before
    requires victim.None? ==> info' == before
    requires victim.Some? ==>
      && victim.value in before && victim.value != n && !before[victim.value].inTried
      && SameStats(info', AfterDrop(before, victim.value))
    ensures OthersKept(info, info', n, victim) && AllStatsOk(info')
    ensures n in info' && Stat(info'[n]) == Stat(before[n])
  {
    if victim.Some? {
      var dropped := AfterDrop(before, victim.value);
      forall m | m in info'
        ensures m in dropped && Stat(info'[m]) == Stat(dropped[m])
      {
        SameStatsFields(info', dropped, m);
      }
      assert AllStatsOk(dropped);
      SameStatsStats(dropped, info');
    }
  }

  lemma AddedNotHeld(h: Hasher, key: nat, t: Tables, b: nat)
    requires Linked(h, key, t, None) && b < BUCKETS
    ensures |t.untried| == BUCKETS && t.idCount !in t.untried[b]
  {
    assert t.idCount !in t.info;
  }

  lemma EntryKnown(h: Hasher, key: nat, t: Tables, owed: Option<nat>, n: nat)
    requires Linked(h, key, t, owed) && n in t.info
    ensures t.info[n].addr.ip in t.addr && t.addr[t.info[n].addr.ip] == n
  {
  }

  /** A matched entry after Good_. */
  function AfterGood(i: Info, time: int): Info {
    i.(lastSuccess := time, lastTry := time, attempts := 0, addr := i.addr.(time := U32(time)),
       refCount := 0, inTried := true)
  }

  lemma GoodStats(info: Infos, info': Infos, n: nat, time: int)
    requires AllStatsOk(info) && n in info && info'.Keys == info.Keys
    requires info'[n].lastSuccess == time && info'[n].lastTry == time && info'[n].inTried
    requires forall m :: m in info && m != n ==>
      && info'[m].lastSuccess == info[m].lastSuccess && info'[m].lastTry == info[m].lastTry
      && (info'[m].inTried ==> info[m].inTried)
    ensures AllStatsOk(info') <==> time > 0
  {
    if AllStatsOk(info') {
      assert StatsOk(info'[n]);
    } else {
      assert forall m :: m in info ==> StatsOk(info[m]);
    }
  }

  lemma RefsOfTried(h: Hasher, key: nat, t: Tables, n: nat)
    requires Linked(h, key, t, None) && n in t.info && t.info[n].inTried
    ensures t.info[n].refCount == 0
  {
  }

  lemma RefsOfUntried(h: Hasher, key: nat, t: Tables, n: nat)
    requires Linked(h, key, t, None) && n in t.info && !t.info[n].inTried
    ensures |t.untried| == BUCKETS && Holders(t.untried, n) != {} && 1 <= t.info[n].refCount <= MAX_REFS
  {
  }

  /** The order in which MakeTried edits the two entries does not matter. */
  lemma EvictInSteps(info: Infos, n: nat, v: nat)
    requires n in info && v in info && n != v
    ensures var a := info[n := info[n].(refCount := 0)];
      var b := a[v := a[v].(inTried := false, refCount := 1)];
      b[n := b[n].(inTried := true)] == AsEvicted(AsTried(info, n), v)
  {
  }

  lemma VictimKnown(h: Hasher, key: nat, t: Tables, n: nat, pos: nat)
    requires Linked(h, key, t, None) && n in t.info && !t.info[n].inTried
    requires pos < |t.tried[TriedBucket(h, key, t.info[n].addr)]|
    ensures var v := t.tried[TriedBucket(h, key, t.info[n].addr)][pos]; v in t.info && v != n && t.info[v].inTried
  {
    TriedReplace(h, key, t.info, t.tried, n, pos);
  }

  lemma ExchangedMeans(h: Hasher, key: nat, t: Tables, n: nat, pos: nat, ub: nat)
    requires n in t.info && |t.tried| == BUCKETS && pos < |t.tried[TriedBucket(h, key, t.info[n].addr)]|
    requires t.tried[TriedBucket(h, key, t.info[n].addr)][pos] in t.info && ub < |t.untried|
    ensures var kb := TriedBucket(h, key, t.info[n].addr);
      var v, u := t.tried[kb][pos], Cleared(t.untried, n, BUCKETS);
      Exchanged(h, key, t, n, pos, ub) ==
      Tables(AsEvicted(AsTried(t.info, n), v), t.addr, t.random, t.tried[kb := Put(t.tried[kb], pos, n)],
             u[ub := u[ub] + {v}], t.nTried, t.nNew, t.idCount)
  {
  }

  lemma MemberListed(h: Hasher, key: nat, info: Infos, bucket: seq<nat>, b: nat, i: nat)
    requires TriedBucketOk(h, key, info, bucket, b) && i < |bucket|
    ensures bucket[i] in info && info[bucket[i]].inTried
  {
  }

  lemma RefsOfNew(h: Hasher, key: nat, t: Tables, n: nat, origin: nat)
    requires Linked(h, key, t, None) && n in t.info && !t.info[n].inTried && origin < BUCKETS && n in t.untried[origin]
    ensures t.info[n].refCount == |Holders(t.untried, n)| && |t.untried| == BUCKETS && |t.tried| == BUCKETS
    ensures |Cleared(t.untried, n, BUCKETS)[origin]| < BUCKET_SIZE
  {
    ClearedRefs(t.info, t.untried, n, origin);
  }

  lemma BucketFrame(h: Hasher, key: nat, info: Infos, info': Infos, tried: seq<seq<nat>>, b: nat)
    requires TriedOk(h, key, info, tried) && b < BUCKETS && info'.Keys == info.Keys
    requires forall n :: n in info ==> info[n].addr == info'[n].addr && info[n].inTried == info'[n].inTried
    ensures TriedBucketOk(h, key, info', tried[b], b)
  {
    SameStatsTried(h, key, info, info', tried);
  }

  /** Shuffling a bucket disturbs nothing. */
  lemma ShuffledLinked(h: Hasher, key: nat, t: Tables, info': Infos, b: nat, tried: seq<seq<nat>>)
    requires Linked(h, key, t, None) && b < BUCKETS && |tried| == BUCKETS && tried == t.tried[b := tried[b]]
    requires info'.Keys == t.info.Keys && TriedBucketOk(h, key, info', tried[b], b)
    requires forall n :: n in t.info ==> t.info[n].addr == info'[n].addr && t.info[n].inTried == info'[n].inTried
    requires forall n :: n in tried[b] <==> n in t.tried[b]
    ensures Linked(h, key, t.(tried := tried), None)
  {
    hide RandomOk, AddrOk, NewBucketsOk, RefsOk;
    forall c: nat | c < BUCKETS
      ensures TriedBucketOk(h, key, t.info, tried[c], c)
    {
      if c != b {
        assert TriedBucketOk(h, key, t.info, t.tried[c], c);
      }
    }
  }

  lemma BucketListed(h: Hasher, key: nat, t: Tables, owed: Option<nat>, b: nat)
    requires Linked(h, key, t, owed) && b < BUCKETS
    ensures |t.untried| == BUCKETS && |t.untried[b]| <= BUCKET_SIZE
    ensures forall n :: n in t.untried[b] ==> n in t.info && !t.info[n].inTried
  {
  }

  lemma SameStatsAddr(info: Infos, info': Infos, addr: map<nat, nat>)
    requires AddrOk(info, addr) && SameStats(info', info)
    ensures AddrOk(info', addr)
  {
    forall n | n in info
      ensures info'[n].addr == info[n].addr
    {
      SameStatsFields(info', info, n);
    }
  }

  lemma DropLinked(h: Hasher, key: nat, t: Tables, owed: Option<nat>, b: nat, n: nat)
    requires Linked(h, key, t, owed) && b < BUCKETS && n in t.untried[b] && owed != Some(n)
    ensures n in t.info && !t.info[n].inTried && t.info[n].refCount >= 1 && |t.untried| == BUCKETS
    ensures NewBucketsOk(AfterDrop(t.info, n), t.untried[b := t.untried[b] - {n}])
    ensures RefsOk(AfterDrop(t.info, n), t.untried[b := t.untried[b] - {n}], owed)
    ensures TriedOk(h, key, AfterDrop(t.info, n), t.tried)
    ensures CountsOk(t.(info := AfterDrop(t.info, n), nNew := if t.info[n].refCount == 1 then t.nNew - 1 else t.nNew))
  {
    hide TriedOk, CountsOk;
    DropRefs(t.info, t.untried, owed, b, n);
    DropTried(h, key, t.info, t.tried, n);
    DropCounts(t, n);
  }

  lemma DroppedLinked(h: Hasher, key: nat, t: Tables, owed: Option<nat>, b: nat, n: nat, t': Tables)
    requires Linked(h, key, t, owed) && b < BUCKETS && n in t.untried[b] && owed != Some(n) && n in t.info
    requires SameStats(t'.info, AfterDrop(t.info, n))
    requires RandomOk(t'.info, t'.random) && AddrOk(t'.info, t'.addr)
    requires t' == t.(info := t'.info, random := t'.random, addr := t'.addr,
                      untried := t.untried[b := t.untried[b] - {n}],
                      nNew := if t.info[n].refCount == 1 then t.nNew - 1 else t.nNew)
    ensures Linked(h, key, t', owed)
  {
    hide RandomOk, AddrOk, Linked, AfterDrop;
    DropLinked(h, key, t, owed, b, n);
    SameStatsBuckets(h, key, AfterDrop(t.info, n), t'.info, t'.tried, t'.untried, owed);
    forall tr
      ensures IdsWhere(t'.info, tr) == IdsWhere(AfterDrop(t.info, n), tr)
    {
      SameStatsIds(AfterDrop(t.info, n), t'.info, tr);
    }
    LinkedParts(h, key, t', owed);
  }

  lemma SameStatsIds(a: Infos, b: Infos, tr: bool)
    requires SameStats(b, a)
    ensures IdsWhere(b, tr) == IdsWhere(a, tr)
  {
    forall n | n in a
      ensures a[n].inTried == b[n].inTried
    {
      SameStatsFields(b, a, n);
    }
  }

  lemma LinkedParts(h: Hasher, key: nat, t: Tables, owed: Option<nat>)
    requires RandomOk(t.info, t.random) && AddrOk(t.info, t.addr) && TriedOk(h, key, t.info, t.tried)
    requires NewBucketsOk(t.info, t.untried) && RefsOk(t.info, t.untried, owed) && CountsOk(t)
    ensures Linked(h, key, t, owed)
  {
  }

  lemma SameStatsBuckets(h: Hasher, key: nat, info: Infos, info': Infos, tried: seq<seq<nat>>, untried: seq<set<nat>>,
                         owed: Option<nat>)
    requires TriedOk(h, key, info, tried) && NewBucketsOk(info, untried) && RefsOk(info, untried, owed)
    requires SameStats(info', info)
    ensures TriedOk(h, key, info', tried) && NewBucketsOk(info', untried) && RefsOk(info', untried, owed)
  {
    hide TriedOk;
    forall n | n in info
      ensures info'[n].addr == info[n].addr && info'[n].inTried == info[n].inTried
      ensures info'[n].refCount == info[n].refCount
    {
      SameStatsFields(info', info, n);
    }
    SameStatsTried(h, key, info, info', tried);
  }
}
