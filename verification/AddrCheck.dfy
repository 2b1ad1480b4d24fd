/**
 CAddrMan::Check_, the executable consistency check, and its relation to the invariant: what it
 accepts exactly, and what the invariant demands beyond it.
 */
module AddrCheck {
  import opened Wrappers
  import opened Sequences
  import opened AddrTables
  import opened AddrMan

  /** `mapAddr[info]` reads 0 for an address that is not in the map. */
  function AddrLookup(addr: map<nat, nat>, ip: nat): nat {
    if ip in addr then addr[ip] else 0
  }

  /** The tests on one entry. */
  predicate EntryOk(t: Tables, n: nat)
    requires n in t.info
  {
    var i := t.info[n];
    && (if i.inTried then i.lastSuccess != 0 && i.refCount == 0 else 0 < i.refCount <= MAX_REFS)
    && AddrLookup(t.addr, i.addr.ip) == n
    && 0 <= i.randomPos < |t.random| && t.random[i.randomPos] == n
    && i.lastTry >= 0 && i.lastSuccess >= 0
  }

  /** `s` lists every element of `ids` once and nothing else. */
  ghost predicate Enumerates(s: seq<nat>, ids: set<nat>) {
    NoDuplicates(s) && forall n :: n in s <==> n in ids
  }

  ghost predicate RefsCounted(info: Infos, untried: seq<set<nat>>) {
    && (forall b, n :: 0 <= b < |untried| && n in untried[b] ==> n in info && !info[n].inTried)
    && (forall n :: n in info && !info[n].inTried ==> |Holders(untried, n)| == info[n].refCount)
  }

  /** What Check_ accepts. */
  ghost predicate Passes(t: Tables) {
    && |t.random| == t.nTried + t.nNew
    && (forall n :: n in t.info ==> EntryOk(t, n))
    && |IdsWhere(t.info, true)| == t.nTried && |IdsWhere(t.info, false)| == t.nNew
    && Enumerates(Concat(t.tried, |t.tried|), IdsWhere(t.info, true))
    && RefsCounted(t.info, t.untried)
  }

  // ---------------------------------------------------------------- the first loop

  /** The error code of the tests on one entry, or 0. */
  method CheckEntry(t: Tables, n: nat) returns (code: int)
    requires n in t.info
    ensures code == 0 <==> EntryOk(t, n)
  {
    var i := t.info[n];
    if i.inTried {
      if i.lastSuccess == 0 { return -1; }
      if i.refCount != 0 { return -2; }
    } else {
      if i.refCount < 0 || i.refCount > MAX_REFS { return -3; }
      if i.refCount == 0 { return -4; }
    }
    if AddrLookup(t.addr, i.addr.ip) != n { return -5; }
    if i.randomPos < 0 || i.randomPos >= |t.random| || t.random[i.randomPos] != n { return -14; }
    if i.lastTry < 0 { return -6; }
    if i.lastSuccess < 0 { return -8; }
    return 0;
  }

  /** The ids `seen` so far, split into tried ones and new ones with their reference counts. */
  ghost predicate Sorted(info: Infos, seen: set<nat>, setTried: set<nat>, mapNew: map<nat, int>) {
    && (forall n :: n in setTried <==> n in seen && n in info && info[n].inTried)
    && (forall n :: n in mapNew <==> n in seen && n in info && !info[n].inTried)
    && (forall n :: n in mapNew ==> mapNew[n] == info[n].refCount)
  }

  method CheckEntries(t: Tables) returns (code: int, setTried: set<nat>, mapNew: map<nat, int>)
    ensures code == 0 <==> forall n :: n in t.info ==> EntryOk(t, n)
    ensures code == 0 ==> Sorted(t.info, t.info.Keys, setTried, mapNew)
  {
    hide EntryOk, Sorted;
    code, setTried, mapNew := 0, {}, map[];
    AscendingLists(t.info.Keys);
    var ids := Ascending(t.info.Keys);
    hide Ascending;
    SortedNone(t.info);
    ghost var seen: set<nat> := {};
    for k := 0 to |ids|
      invariant seen <= t.info.Keys && forall i :: 0 <= i < k ==> ids[i] in seen
      invariant forall n :: n in seen ==> EntryOk(t, n)
      invariant Sorted(t.info, seen, setTried, mapNew)
    {
      var n := ids[k];
      assert n in t.info.Keys;
      code := CheckEntry(t, n);
      if code != 0 {
        return;
      }
      SortedStep(t.info, seen, setTried, mapNew, n);
      seen := seen + {n};
      if t.info[n].inTried {
        setTried := setTried + {n};
      } else {
        mapNew := mapNew[n := t.info[n].refCount];
      }
    }
    assert seen == t.info.Keys;
  }

  lemma SortedNone(info: Infos)
    ensures Sorted(info, {}, {}, map[])
  {
  }

  lemma SortedStep(info: Infos, seen: set<nat>, setTried: set<nat>, mapNew: map<nat, int>, n: nat)
    requires Sorted(info, seen, setTried, mapNew) && n in info
    ensures if info[n].inTried then Sorted(info, seen + {n}, setTried + {n}, mapNew)
            else Sorted(info, seen + {n}, setTried, mapNew[n := info[n].refCount])
  {
  }

  lemma SortedMeans(info: Infos, setTried: set<nat>, mapNew: map<nat, int>, untried: seq<set<nat>>)
    requires Sorted(info, info.Keys, setTried, mapNew)
    ensures setTried == IdsWhere(info, true) && mapNew.Keys == IdsWhere(info, false)
    ensures |mapNew| == |IdsWhere(info, false)|
    ensures RefsMatch(mapNew, untried) <==> RefsCounted(info, untried)
  {
    hide RefsMatch, RefsCounted;
    assert setTried == IdsWhere(info, true) && mapNew.Keys == IdsWhere(info, false);
    assert |mapNew| == |mapNew.Keys|;
    RefsSame(info, setTried, mapNew, untried);
  }

  lemma RefsSame(info: Infos, setTried: set<nat>, mapNew: map<nat, int>, untried: seq<set<nat>>)
    requires Sorted(info, info.Keys, setTried, mapNew)
    ensures RefsMatch(mapNew, untried) <==> RefsCounted(info, untried)
  {
    hide Holders;
    assert forall n :: n in mapNew <==> n in info && !info[n].inTried;
    if RefsMatch(mapNew, untried) {
      assert RefsCounted(info, untried);
    }
    if RefsCounted(info, untried) {
      assert RefsMatch(mapNew, untried);
    }
  }

  // ---------------------------------------------------------------- the tried buckets

  lemma {:induction false} ConcatSplits(tried: seq<seq<nat>>, b: nat, k: nat)
    requires b <= k <= |tried|
    ensures |Concat(tried, b)| <= |Concat(tried, k)| && Concat(tried, k)[..|Concat(tried, b)|] == Concat(tried, b)
    decreases k
  {
    if b < k {
      ConcatSplits(tried, b, k - 1);
    } else {
      assert Concat(tried, k)[..|Concat(tried, k)|] == Concat(tried, k);
    }
  }

  /** A repeated or foreign id anywhere spoils the enumeration. */
  lemma Spoiled(tried: seq<seq<nat>>, b: nat, i: nat, ids: set<nat>)
    requires b < |tried| && i < |tried[b]|
    requires tried[b][i] !in ids || tried[b][i] in Concat(tried, b) + tried[b][..i]
    ensures !Enumerates(Concat(tried, |tried|), ids)
  {
    var all, seen := Concat(tried, |tried|), Concat(tried, b) + tried[b][..i];
    ConcatSplits(tried, b + 1, |tried|);
    assert Concat(tried, b + 1) == Concat(tried, b) + tried[b];
    assert forall k :: 0 <= k < |seen| ==> all[k] == seen[k];
    assert all[|seen|] == tried[b][i];
    if tried[b][i] in seen {
      var k :| 0 <= k < |seen| && seen[k] == tried[b][i];
      assert all[k] == all[|seen|];
    }
  }

  method CheckTried(t: Tables, ids: set<nat>) returns (ok: bool, left: set<nat>)
    ensures ok && left == {} <==> Enumerates(Concat(t.tried, |t.tried|), ids)
  {
    left := ids;
    for b := 0 to |t.tried|
      invariant NoDuplicates(Concat(t.tried, b)) && forall n :: n in Concat(t.tried, b) ==> n in ids
      invariant left == set n | n in ids && n !in Concat(t.tried, b)
    {
      for i := 0 to |t.tried[b]|
        invariant NoDuplicates(Concat(t.tried, b) + t.tried[b][..i])
        invariant forall n :: n in Concat(t.tried, b) + t.tried[b][..i] ==> n in ids
        invariant left == set n | n in ids && n !in Concat(t.tried, b) + t.tried[b][..i]
      {
        var n := t.tried[b][i];
        ghost var seen := Concat(t.tried, b) + t.tried[b][..i];
        assert Concat(t.tried, b) + t.tried[b][..i + 1] == seen + [n];
        if n !in left {
          Spoiled(t.tried, b, i, ids);
          return false, left;
        }
        left := left - {n};
      }
      assert t.tried[b][..|t.tried[b]|] == t.tried[b];
    }
    ghost var all := Concat(t.tried, |t.tried|);
    assert forall n :: n in ids && n !in all ==> n in left;
    return true, left;
  }

  // ---------------------------------------------------------------- the new buckets

  /** What is left to count of each reference count, after the buckets below `b` and `part` of bucket `b`. */
  ghost predicate Remaining(left: map<nat, int>, refs: map<nat, int>, untried: seq<set<nat>>, b: nat, part: set<nat>) {
    && left.Keys <= refs.Keys
    && forall n :: n in refs ==>
      var seen := |HoldersBelow(untried, n, b)| + if n in part then 1 else 0;
      if n in left then seen < refs[n] && left[n] == refs[n] - seen else seen == refs[n]
  }

  ghost predicate RefsMatch(refs: map<nat, int>, untried: seq<set<nat>>) {
    && (forall b, n :: 0 <= b < |untried| && n in untried[b] ==> n in refs)
    && (forall n :: n in refs ==> |Holders(untried, n)| == refs[n])
  }

  lemma RemainingStep(left: map<nat, int>, refs: map<nat, int>, untried: seq<set<nat>>, b: nat, part: set<nat>, n: nat)
    requires b < |untried| && n in untried[b] && n !in part && Remaining(left, refs, untried, b, part)
    ensures n in left ==>
      Remaining(if left[n] == 1 then left - {n} else left[n := left[n] - 1], refs, untried, b, part + {n})
    ensures n !in left ==> !RefsMatch(refs, untried)
  {
    if n !in left && n in refs {
      HoldersBelowStep(untried, n, b);
      assert HoldersBelow(untried, n, b + 1) <= Holders(untried, n);
      CardinalitySubset(HoldersBelow(untried, n, b + 1), Holders(untried, n));
    }
  }

  lemma RemainingNext(left: map<nat, int>, refs: map<nat, int>, untried: seq<set<nat>>, b: nat)
    requires b < |untried| && Remaining(left, refs, untried, b, untried[b])
    ensures Remaining(left, refs, untried, b + 1, {})
  {
    forall n | n in refs {
      HoldersBelowStep(untried, n, b);
    }
  }

  lemma RemainingStart(refs: map<nat, int>, untried: seq<set<nat>>)
    requires forall n :: n in refs ==> refs[n] > 0
    ensures Remaining(refs, refs, untried, 0, {})
  {
    forall n | n in refs
      ensures |HoldersBelow(untried, n, 0)| == 0
    {
      assert HoldersBelow(untried, n, 0) == {};
    }
  }

  lemma RemainingEnd(left: map<nat, int>, refs: map<nat, int>, untried: seq<set<nat>>)
    requires Remaining(left, refs, untried, |untried|, {})
    ensures left == map[] <==> forall n :: n in refs ==> |Holders(untried, n)| == refs[n]
  {
    forall n | n in refs
      ensures HoldersBelow(untried, n, |untried|) == Holders(untried, n)
    {
    }
    if left != map[] {
      var n :| n in left;
      assert |Holders(untried, n)| < refs[n];
    }
  }

  method CheckBucket(untried: seq<set<nat>>, b: nat, refs: map<nat, int>, was: map<nat, int>)
    returns (ok: bool, left: map<nat, int>)
    requires b < |untried| && Remaining(was, refs, untried, b, {})
    ensures !ok ==> !RefsMatch(refs, untried)
    ensures ok ==> Remaining(left, refs, untried, b + 1, {}) && forall n :: n in untried[b] ==> n in refs
  {
    hide Remaining, RefsMatch;
    left := was;
    AscendingLists(untried[b]);
    var ids := Ascending(untried[b]);
    ghost var part: set<nat> := {};
    for i := 0 to |ids|
      invariant part <= untried[b] && forall k :: i <= k < |ids| ==> ids[k] !in part
      invariant forall k :: 0 <= k < i ==> ids[k] in part
      invariant Remaining(left, refs, untried, b, part)
      invariant forall n :: n in part ==> n in refs
    {
      var n := ids[i];
      assert n in untried[b];
      RemainingStep(left, refs, untried, b, part, n);
      if n !in left {
        return false, left;
      }
      LeftInRefs(left, refs, untried, b, part);
      left := if left[n] == 1 then left - {n} else left[n := left[n] - 1];
      part := part + {n};
    }
    assert part == untried[b];
    RemainingNext(left, refs, untried, b);
    return true, left;
  }

  method CheckNew(untried: seq<set<nat>>, refs: map<nat, int>) returns (ok: bool, left: map<nat, int>)
    requires forall n :: n in refs ==> refs[n] > 0
    ensures ok && left == map[] <==> RefsMatch(refs, untried)
  {
    hide Remaining, RefsMatch;
    left := refs;
    RemainingStart(refs, untried);
    for b := 0 to |untried|
      invariant Remaining(left, refs, untried, b, {})
      invariant forall c, n :: 0 <= c < b && n in untried[c] ==> n in refs
    {
      var bucketOk;
      bucketOk, left := CheckBucket(untried, b, refs, left);
      if !bucketOk {
        return false, left;
      }
    }
    RemainingEnd(left, refs, untried);
    MatchMeans(refs, untried);
    return true, left;
  }

  lemma LeftInRefs(left: map<nat, int>, refs: map<nat, int>, untried: seq<set<nat>>, b: nat, part: set<nat>)
    requires Remaining(left, refs, untried, b, part)
    ensures left.Keys <= refs.Keys
  {
  }

  lemma MatchMeans(refs: map<nat, int>, untried: seq<set<nat>>)
    requires forall c, n :: 0 <= c < |untried| && n in untried[c] ==> n in refs
    ensures RefsMatch(refs, untried) <==> forall n :: n in refs ==> |Holders(untried, n)| == refs[n]
  {
  }

  /** CAddrMan::Check_. */
  method Check(t: Tables) returns (code: int)
    ensures code == 0 <==> Passes(t)
  {
    hide EntryOk, Enumerates, Concat, RefsMatch, RefsCounted, Sorted;
    if |t.random| != t.nTried + t.nNew {
      return -7;
    }
    var setTried, mapNew;
    code, setTried, mapNew := CheckEntries(t);
    if code != 0 {
      return;
    }
    SortedMeans(t.info, setTried, mapNew, t.untried);
    if |setTried| != t.nTried {
      return -9;
    }
    if |mapNew| != t.nNew {
      return -10;
    }
    RefsPositive(t, setTried, mapNew);
    var triedOk, leftTried := CheckTried(t, setTried);
    if !triedOk {
      return -11;
    }
    var newOk, leftNew := CheckNew(t.untried, mapNew);
    if !newOk {
      return -12;
    }
    if leftTried != {} {
      return -13;
    }
    if leftNew != map[] {
      return -15;
    }
    return 0;
  }

  lemma RefsPositive(t: Tables, setTried: set<nat>, mapNew: map<nat, int>)
    requires (forall n :: n in t.info ==> EntryOk(t, n)) && Sorted(t.info, t.info.Keys, setTried, mapNew)
    ensures forall n :: n in mapNew ==> mapNew[n] > 0
  {
    forall n | n in mapNew
      ensures mapNew[n] > 0
    {
      assert EntryOk(t, n);
    }
  }

  // ---------------------------------------------------------------- what Check_ leaves out

  /** What the invariant demands and Check_ does not look at. */
  ghost predicate BeyondCheck(h: Hasher, key: nat, t: Tables) {
    && |t.tried| == |t.untried| == BUCKETS
    && (forall b :: 0 <= b < BUCKETS ==> |t.tried[b]| <= BUCKET_SIZE && |t.untried[b]| <= BUCKET_SIZE)
    && (forall b, i :: 0 <= b < BUCKETS && 0 <= i < |t.tried[b]| ==>
          t.tried[b][i] in t.info && TriedBucket(h, key, t.info[t.tried[b][i]].addr) == b)
    && (forall n :: n in t.info ==> t.info[n].addr.ip in t.addr && n < t.idCount)
    && (forall a :: a in t.addr ==> t.addr[a] in t.info && t.info[t.addr[a]].addr.ip == a)
  }

  lemma {:induction false} InConcat(tried: seq<seq<nat>>, k: nat, n: nat)
    requires k <= |tried|
    ensures n in Concat(tried, k) <==> exists b :: 0 <= b < k && n in tried[b]
  {
    if k > 0 {
      InConcat(tried, k - 1, n);
    }
  }

  /** Buckets in order, each without repetitions and no two with a common id, are in order as a whole. */
  lemma {:induction false} ConcatDistinct(h: Hasher, key: nat, info: Infos, tried: seq<seq<nat>>, k: nat)
    requires TriedOk(h, key, info, tried) && k <= BUCKETS
    ensures NoDuplicates(Concat(tried, k))
  {
    if k > 0 {
      ConcatDistinct(h, key, info, tried, k - 1);
      var front, last := Concat(tried, k - 1), tried[k - 1];
      assert TriedBucketOk(h, key, info, last, k - 1);
      forall n | n in front
        ensures n !in last
      {
        InConcat(tried, k - 1, n);
        var b: nat :| b < k - 1 && n in tried[b];
        assert TriedBucketOk(h, key, info, tried[b], b);
      }
    }
  }

  lemma TriedEnumerated(h: Hasher, key: nat, info: Infos, tried: seq<seq<nat>>)
    requires TriedOk(h, key, info, tried)
    ensures Enumerates(Concat(tried, |tried|), IdsWhere(info, true))
  {
    ConcatDistinct(h, key, info, tried, BUCKETS);
    forall n
      ensures n in Concat(tried, |tried|) <==> n in IdsWhere(info, true)
    {
      InConcat(tried, BUCKETS, n);
      if n in Concat(tried, |tried|) {
        var b: nat :| b < BUCKETS && n in tried[b];
        assert TriedBucketOk(h, key, info, tried[b], b);
      }
    }
  }

  lemma ConcatAt(tried: seq<seq<nat>>, b: nat, i: nat)
    requires b < |tried| && i < |tried[b]|
    ensures |Concat(tried, b)| + i < |Concat(tried, |tried|)|
    ensures Concat(tried, |tried|)[|Concat(tried, b)| + i] == tried[b][i]
  {
    var upTo := Concat(tried, b + 1);
    assert upTo == Concat(tried, b) + tried[b];
    ConcatSplits(tried, b + 1, |tried|);
    hide Concat;
    assert Concat(tried, |tried|)[..|upTo|][|Concat(tried, b)| + i] == upTo[|Concat(tried, b)| + i];
  }

  lemma BucketDistinct(tried: seq<seq<nat>>, b: nat)
    requires b < |tried| && NoDuplicates(Concat(tried, |tried|))
    ensures NoDuplicates(tried[b])
  {
    hide Concat;
    forall i, j | 0 <= i < j < |tried[b]|
      ensures tried[b][i] != tried[b][j]
    {
      ConcatAt(tried, b, i);
      ConcatAt(tried, b, j);
    }
  }

  lemma EnumeratedTried(h: Hasher, key: nat, t: Tables)
    requires Enumerates(Concat(t.tried, |t.tried|), IdsWhere(t.info, true)) && BeyondCheck(h, key, t)
    ensures TriedOk(h, key, t.info, t.tried)
  {
    var all := Concat(t.tried, |t.tried|);
    forall b: nat | b < BUCKETS
      ensures TriedBucketOk(h, key, t.info, t.tried[b], b)
    {
      BucketDistinct(t.tried, b);
      forall i | 0 <= i < |t.tried[b]|
        ensures t.tried[b][i] in IdsWhere(t.info, true)
      {
        InConcat(t.tried, BUCKETS, t.tried[b][i]);
      }
    }
    forall n | n in t.info && t.info[n].inTried
      ensures n in t.tried[TriedBucket(h, key, t.info[n].addr)]
    {
      assert n in IdsWhere(t.info, true);
      InConcat(t.tried, BUCKETS, n);
      var b: nat :| b < BUCKETS && n in t.tried[b];
      var i :| 0 <= i < |t.tried[b]| && t.tried[b][i] == n;
    }
  }

  /** As many places as entries: if every entry is at its place, every place holds its entry. */
  lemma PlacesFilled(info: Infos, random: seq<nat>)
    requires forall n :: n in info ==> 0 <= info[n].randomPos < |random| && random[info[n].randomPos] == n
    requires |random| == |info|
    ensures RandomOk(info, random)
  {
    forall i | 0 <= i < |random|
      ensures random[i] in info && info[random[i]].randomPos == i
    {
      if random[i] !in info || info[random[i]].randomPos != i {
        var rest := random[..i] + random[i + 1..];
        forall n | n in info.Keys
          ensures n in rest
        {
          var p := info[n].randomPos;
          assert random[p] == n && p != i;
          assert rest[if p < i then p else p - 1] == n;
        }
        CoveredBy(rest, info.Keys);
        assert false;
      }
    }
  }

  lemma ConsistentPasses(h: Hasher, key: nat, t: Tables)
    requires Consistent(h, key, t)
    ensures Passes(t) && BeyondCheck(h, key, t)
  {
    hide Enumerates, Concat, EntryOk, RefsCounted, RandomOk, AddrOk, TriedOk, NewBucketsOk, RefsOk, AllStatsOk,
      BeyondCheck;
    AtMost32768(h, key, t);
    TriedEnumerated(h, key, t.info, t.tried);
    ConsistentRefs(t.info, t.untried);
    ConsistentBeyond(h, key, t);
    forall n | n in t.info
      ensures EntryOk(t, n)
    {
      ConsistentEntry(h, key, t, n);
    }
  }

  lemma ConsistentEntry(h: Hasher, key: nat, t: Tables, n: nat)
    requires Consistent(h, key, t) && n in t.info
    ensures EntryOk(t, n)
  {
    hide TriedOk, NewBucketsOk, CountsOk;
    assert StatsOk(t.info[n]);
  }

  lemma ConsistentRefs(info: Infos, untried: seq<set<nat>>)
    requires NewBucketsOk(info, untried) && RefsOk(info, untried, None)
    ensures RefsCounted(info, untried)
  {
    hide Holders;
  }

  lemma ConsistentBeyond(h: Hasher, key: nat, t: Tables)
    requires Linked(h, key, t, None)
    ensures BeyondCheck(h, key, t)
  {
    hide RandomOk, RefsOk;
    forall b: nat | b < BUCKETS
      ensures TriedBucketOk(h, key, t.info, t.tried[b], b)
    {
    }
  }

  lemma EntriesTables(h: Hasher, key: nat, t: Tables)
    requires (forall n :: n in t.info ==> EntryOk(t, n)) && BeyondCheck(h, key, t)
    ensures AddrOk(t.info, t.addr) && AllStatsOk(t.info)
    ensures forall n :: n in t.info ==> 0 <= t.info[n].randomPos < |t.random| && t.random[t.info[n].randomPos] == n
  {
    forall n | n in t.info
      ensures EntryOk(t, n)
    {
    }
  }

  lemma CountedRefs(h: Hasher, key: nat, t: Tables)
    requires (forall n :: n in t.info ==> EntryOk(t, n)) && RefsCounted(t.info, t.untried) && BeyondCheck(h, key, t)
    ensures NewBucketsOk(t.info, t.untried) && RefsOk(t.info, t.untried, None)
  {
    hide Holders;
    forall n | n in t.info
      ensures EntryOk(t, n)
    {
    }
  }

  lemma PassesConsistent(h: Hasher, key: nat, t: Tables)
    requires Passes(t) && BeyondCheck(h, key, t)
    ensures Consistent(h, key, t)
  {
    hide EntryOk, RefsCounted, Enumerates, Concat, TriedOk, RandomOk, AddrOk, RefsOk, NewBucketsOk, AllStatsOk;
    EnumeratedTried(h, key, t);
    IdsSplit(t.info);
    EntriesTables(h, key, t);
    PlacesFilled(t.info, t.random);
    CountedRefs(h, key, t);
  }

  /** The invariant is exactly what Check_ accepts together with what it does not look at. */
  lemma ConsistentIff(h: Hasher, key: nat, t: Tables)
    ensures Consistent(h, key, t) <==> Passes(t) && BeyondCheck(h, key, t)
  {
    hide Consistent, Passes, BeyondCheck;
    if Consistent(h, key, t) {
      ConsistentPasses(h, key, t);
    }
    if Passes(t) && BeyondCheck(h, key, t) {
      PassesConsistent(h, key, t);
    }
  }
}
