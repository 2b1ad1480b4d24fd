/**
 How the address manager is saved and loaded: Serialize writes the new entries, the tried entries
 and the new buckets as indices; Unserialize renumbers everything and rebuilds the other tables.

 A stream is a sequence of typed values; reading past its end, or a value of the wrong type, fails.
 */
module AddrFile {
  import opened Wrappers
  import opened Sequences
  import opened AddrTables
  import opened AddrMan

  /** What is saved of an entry. */
  datatype Saved = Saved(addr: Address, source: nat, lastSuccess: int, attempts: int)

  datatype Token = Version(v: nat) | Key(k: nat) | Number(n: int) | Entry(e: Saved)

  type Stream = seq<Token>

  function Save(i: Info): Saved {
    Saved(i.addr, i.source, i.lastSuccess, i.attempts)
  }

  /** A saved entry as it is read: the fields that live in memory only start afresh. */
  function Load(s: Saved): Info {
    Info(s.addr, s.source, s.lastSuccess, 0, s.attempts, 0, false, -1)
  }

  // ---------------------------------------------------------------- the order of the entries in the file

  /** The test that selects an entry for the first or the second part of the file. */
  predicate Chosen(i: Info, tried: bool) {
    if tried then i.inTried else i.refCount != 0
  }

  function Filter(info: Infos, ids: seq<nat>, tried: bool): (r: seq<nat>)
    ensures forall i :: 0 <= i < |r| ==> r[i] in info
  {
    if ids == [] then []
    else
      var init, last := Filter(info, ids[..|ids| - 1], tried), ids[|ids| - 1];
      if last in info && Chosen(info[last], tried) then init + [last] else init
  }

  lemma FilterStep(info: Infos, ids: seq<nat>, tried: bool, k: nat)
    requires k < |ids| && ids[k] in info
    ensures Filter(info, ids[..k + 1], tried)
      == Filter(info, ids[..k], tried) + if Chosen(info[ids[k]], tried) then [ids[k]] else []
  {
    assert ids[..k + 1][..k] == ids[..k];
  }

  lemma {:induction false} FilterLists(info: Infos, ids: seq<nat>, tried: bool)
    requires NoDuplicates(ids)
    ensures NoDuplicates(Filter(info, ids, tried))
    ensures forall n :: n in Filter(info, ids, tried) <==> n in ids && n in info && Chosen(info[n], tried)
  {
    if ids != [] {
      var init, last := ids[..|ids| - 1], ids[|ids| - 1];
      assert ids == init + [last];
      FilterLists(info, init, tried);
    }
  }

  lemma {:induction false} FilterPrefix(info: Infos, ids: seq<nat>, tried: bool, k: nat)
    requires k <= |ids|
    ensures |Filter(info, ids[..k], tried)| <= |Filter(info, ids, tried)|
    ensures Filter(info, ids[..k], tried) == Filter(info, ids, tried)[..|Filter(info, ids[..k], tried)|]
  {
    if k < |ids| {
      FilterPrefix(info, ids[..|ids| - 1], tried, k);
      assert ids[..|ids| - 1][..k] == ids[..k];
    } else {
      assert ids[..k] == ids;
    }
  }

  /** The ids in the first part of the file, or in the second. */
  function Part(t: Tables, tried: bool): seq<nat> {
    Filter(t.info, Ascending(t.info.Keys), tried)
  }

  /** Position in the file, which is the id after loading. */
  function Order(t: Tables): seq<nat> {
    Part(t, false) + Part(t, true)
  }

  lemma PartLists(h: Hasher, key: nat, t: Tables, tried: bool)
    requires Linked(h, key, t, None)
    ensures NoDuplicates(Part(t, tried)) && |Part(t, tried)| == if tried then t.nTried else t.nNew
    ensures forall n :: n in Part(t, tried) <==> n in t.info && t.info[n].inTried == tried
  {
    var ids := Ascending(t.info.Keys);
    AscendingLists(t.info.Keys);
    FilterLists(t.info, ids, tried);
    var part := Part(t, tried);
    forall n | n in t.info
      ensures Chosen(t.info[n], tried) <==> t.info[n].inTried == tried
      ensures n in ids
    {
      assert n in t.info.Keys;
    }
    DistinctFitIn(part, IdsWhere(t.info, tried));
    CoveredBy(part, IdsWhere(t.info, tried));
  }

  lemma OrderLists(h: Hasher, key: nat, t: Tables)
    requires Linked(h, key, t, None)
    ensures NoDuplicates(Order(t)) && |Order(t)| == t.nNew + t.nTried && t.nNew == |Part(t, false)| && t.nTried >= 0
    ensures forall n :: n in Order(t) <==> n in t.info
    ensures forall x :: 0 <= x < |Order(t)| ==> Order(t)[x] in t.info && (t.info[Order(t)[x]].inTried <==> x >= t.nNew)
  {
    PartLists(h, key, t, false);
    PartLists(h, key, t, true);
    var a, b := Part(t, false), Part(t, true);
    forall x | 0 <= x < |a + b|
      ensures (a + b)[x] in t.info && (t.info[(a + b)[x]].inTried <==> x >= t.nNew)
    {
      assert (a + b)[x] in if x < |a| then a else b;
    }
    forall x, y | 0 <= x < y < |a + b|
      ensures (a + b)[x] != (a + b)[y]
    {
      assert (a + b)[x] in if x < |a| then a else b;
      assert (a + b)[y] in if y < |a| then a else b;
    }
  }

  // ---------------------------------------------------------------- the format

  function Entries(info: Infos, ids: seq<nat>): Stream
    requires forall i :: 0 <= i < |ids| ==> ids[i] in info
  {
    seq(|ids|, i requires 0 <= i < |ids| => Entry(Save(info[ids[i]])))
  }

  function IndexOf(order: seq<nat>, n: nat): (x: nat)
    ensures n in order ==> x < |order| && order[x] == n
  {
    if order == [] then 0 else if order[0] == n then 0 else 1 + IndexOf(order[1..], n)
  }

  function Indices(order: seq<nat>, ids: seq<nat>): Stream {
    seq(|ids|, i requires 0 <= i < |ids| => Number(IndexOf(order, ids[i])))
  }

  function BucketTokens(order: seq<nat>, bucket: set<nat>): Stream {
    [Number(|bucket|)] + Indices(order, Ascending(bucket))
  }

  function BucketsFrom(order: seq<nat>, untried: seq<set<nat>>, b: nat): Stream
    requires b <= |untried|
    decreases |untried| - b
  {
    if b == |untried| then [] else BucketTokens(order, untried[b]) + BucketsFrom(order, untried, b + 1)
  }

  function Header(key: nat, t: Tables): Stream {
    [Version(0), Key(key), Number(t.nNew), Number(t.nTried), Number(BUCKETS)]
  }

  /** The saved form of the tables. */
  function Written(key: nat, t: Tables): Stream {
    Header(key, t) + (Entries(t.info, Part(t, false)) + (Entries(t.info, Part(t, true)) +
    BucketsFrom(Part(t, false), t.untried, 0)))
  }

  // ---------------------------------------------------------------- Serialize

  /** `unk` gives each id its position. */
  ghost predicate Numbered(unk: map<nat, nat>, ids: seq<nat>) {
    forall i :: 0 <= i < |ids| ==> ids[i] in unk && unk[ids[i]] == i
  }

  lemma EntriesAppend(info: Infos, ids: seq<nat>, n: nat)
    requires n in info && forall i :: 0 <= i < |ids| ==> ids[i] in info
    ensures Entries(info, ids + [n]) == Entries(info, ids) + [Entry(Save(info[n]))]
  {
  }

  lemma NotYetChosen(info: Infos, ids: seq<nat>, tried: bool, k: nat)
    requires NoDuplicates(ids) && k < |ids|
    ensures ids[k] !in Filter(info, ids[..k], tried)
  {
    FilterLists(info, ids[..k], tried);
  }

  lemma NumberNext(unk: map<nat, nat>, ids: seq<nat>, n: nat)
    requires Numbered(unk, ids) && n !in ids
    ensures Numbered(unk[n := |ids|], ids) && Numbered(unk[n := |ids|], ids + [n])
  {
  }

  /** Write the chosen entries in ascending order of their ids and number them. */
  method WriteEntries(t: Tables, tried: bool, count: int) returns (s: Stream, unk: map<nat, nat>)
    requires count == |Part(t, tried)|
    ensures s == Entries(t.info, Part(t, tried)) && Numbered(unk, Part(t, tried))
  {
    hide Filter, Entries, Numbered, Chosen;
    var ids := Ascending(t.info.Keys);
    AscendingLists(t.info.Keys);
    hide Ascending;
    ghost var part: seq<nat> := [];
    StartPart(t.info, tried);
    s, unk := [], map[];
    var n := 0;
    for k := 0 to |ids|
      invariant part == Filter(t.info, ids[..k], tried) && n == |part|
      invariant s == Entries(t.info, part) && Numbered(unk, part)
    {
      FilterPrefix(t.info, ids, tried, k);
      if n == count {
        assert part == Part(t, tried);
        return;
      }
      var id := ids[k];
      assert id in t.info.Keys;
      FilterStep(t.info, ids, tried, k);
      NotYetChosen(t.info, ids, tried, k);
      NumberNext(unk, part, id);
      unk := unk[id := n];
      if Chosen(t.info[id], tried) {
        EntriesAppend(t.info, part, id);
        s := s + [Entry(Save(t.info[id]))];
        part := part + [id];
        n := n + 1;
      }
    }
    assert ids[..|ids|] == ids;
  }

  lemma StartPart(info: Infos, tried: bool)
    ensures Filter(info, [], tried) == [] && Entries(info, []) == [] && Numbered(map[], [])
  {
  }

  lemma IndicesStep(order: seq<nat>, ids: seq<nat>, i: nat)
    requires i < |ids|
    ensures Indices(order, ids[..i + 1]) == Indices(order, ids[..i]) + [Number(IndexOf(order, ids[i]))]
  {
  }

  method WriteBucket(order: seq<nat>, bucket: set<nat>, unk: map<nat, nat>) returns (s: Stream)
    requires Numbered(unk, order) && forall n :: n in bucket ==> n in order
    ensures s == BucketTokens(order, bucket)
  {
    hide Indices;
    AscendingLists(bucket);
    var ids := Ascending(bucket);
    s := [Number(|bucket|)];
    assert Indices(order, ids[..0]) == [] by {
      NoIndices(order, ids);
    }
    for i := 0 to |ids|
      invariant s == [Number(|bucket|)] + Indices(order, ids[..i])
    {
      assert ids[i] in bucket;
      var x := IndexOf(order, ids[i]);
      assert unk[order[x]] == x;
      IndicesStep(order, ids, i);
      s := s + [Number(unk[ids[i]])];
    }
    assert ids[..|ids|] == ids;
  }

  lemma NoIndices(order: seq<nat>, ids: seq<nat>)
    ensures Indices(order, ids[..0]) == []
  {
  }

  /** Write every new bucket: its size, and the numbers given to its entries. */
  method WriteBuckets(order: seq<nat>, untried: seq<set<nat>>, unk: map<nat, nat>) returns (s: Stream)
    requires Numbered(unk, order)
    requires forall b, n :: 0 <= b < |untried| && n in untried[b] ==> n in order
    ensures s == BucketsFrom(order, untried, 0)
  {
    hide BucketTokens, Numbered;
    s := [];
    for b := 0 to |untried|
      invariant s + BucketsFrom(order, untried, b) == BucketsFrom(order, untried, 0)
    {
      var bucket := WriteBucket(order, untried[b], unk);
      s := s + bucket;
    }
  }

  /** CAddrMan::Serialize. */
  method Serialize(h: Hasher, key: nat, t: Tables) returns (s: Stream)
    requires Consistent(h, key, t)
    ensures s == Written(key, t)
  {
    hide Linked, AllStatsOk, Part, Entries, BucketsFrom;
    PartLists(h, key, t, false);
    PartLists(h, key, t, true);
    BucketMembers(h, key, t);
    s := [Version(0), Key(key), Number(t.nNew), Number(t.nTried), Number(BUCKETS)];
    var news, unk := WriteEntries(t, false, t.nNew);
    var trieds, _ := WriteEntries(t, true, t.nTried);
    var buckets := WriteBuckets(Part(t, false), t.untried, unk);
    s := s + (news + (trieds + buckets));
  }

  /**
   The layout of the file: version, key, the two counts, the number of buckets; then the new entries and the tried ones,
   each in ascending order of their ids; then the buckets.
   */
  lemma WrittenLayout(h: Hasher, key: nat, t: Tables)
    requires Linked(h, key, t, None)
    ensures var s, ids := Written(key, t), Order(t);
      && |ids| == t.nNew + t.nTried && |s| >= 5 + |ids|
      && s[0] == Version(0) && s[1] == Key(key) && s[2] == Number(t.nNew) && s[3] == Number(t.nTried) && s[4] == Number(256)
      && (forall x :: 0 <= x < |ids| ==>
            && ids[x] in t.info && (t.info[ids[x]].inTried <==> x >= t.nNew)
            && s[5 + x] == Entry(Saved(t.info[ids[x]].addr, t.info[ids[x]].source, t.info[ids[x]].lastSuccess, t.info[ids[x]].attempts)))
      && (forall x, y :: 0 <= x < y < |ids| && (y < t.nNew || x >= t.nNew) ==> ids[x] < ids[y])
      && s[5 + |ids|..] == BucketsFrom(Part(t, false), t.untried, 0)
  {
    hide Linked, Part, BucketsFrom, NoDuplicates;
    OrderLists(h, key, t);
    var p, q := Part(t, false), Part(t, true);
    BothAscend(t);
    WrittenAt(Header(key, t), t.info, p, q, BucketsFrom(p, t.untried, 0));
  }

  lemma BothAscend(t: Tables)
    ensures forall x, y :: 0 <= x < y < |Order(t)| && (y < |Part(t, false)| || x >= |Part(t, false)|) ==> Order(t)[x] < Order(t)[y]
  {
    hide Part;
    PartAscends(t, false);
    PartAscends(t, true);
    var p, q := Part(t, false), Part(t, true);
    forall x, y | 0 <= x < y < |p + q| && (y < |p| || x >= |p|)
      ensures (p + q)[x] < (p + q)[y]
    {
      if x >= |p| {
        assert (p + q)[x] == q[x - |p|] && (p + q)[y] == q[y - |p|];
      }
    }
  }

  lemma WrittenAt(head: Stream, info: Infos, p: seq<nat>, q: seq<nat>, tail: Stream)
    requires (forall i :: 0 <= i < |p| ==> p[i] in info) && (forall i :: 0 <= i < |q| ==> q[i] in info)
    ensures var s := head + (Entries(info, p) + (Entries(info, q) + tail));
      && |s| == |head| + |p + q| + |tail|
      && (forall x :: 0 <= x < |head| ==> s[x] == head[x])
      && (forall x :: 0 <= x < |p + q| ==> (p + q)[x] in info && s[|head| + x] == Entry(Save(info[(p + q)[x]])))
      && s[|head| + |p + q|..] == tail
  {
  }

  lemma PartAscends(t: Tables, tried: bool)
    ensures forall x, y :: 0 <= x < y < |Part(t, tried)| ==> Part(t, tried)[x] < Part(t, tried)[y]
  {
    AscendingLists(t.info.Keys);
    FilterAscends(t.info, Ascending(t.info.Keys), tried);
  }

  lemma {:induction false} FilterAscends(info: Infos, ids: seq<nat>, tried: bool)
    requires forall x, y :: 0 <= x < y < |ids| ==> ids[x] < ids[y]
    ensures forall x, y :: 0 <= x < y < |Filter(info, ids, tried)| ==> Filter(info, ids, tried)[x] < Filter(info, ids, tried)[y]
    ensures forall x :: 0 <= x < |Filter(info, ids, tried)| ==> Filter(info, ids, tried)[x] in ids
  {
    if ids != [] {
      var init, last := ids[..|ids| - 1], ids[|ids| - 1];
      FilterAscends(info, init, tried);
      var f := Filter(info, init, tried);
      forall x | 0 <= x < |f|
        ensures f[x] in ids && f[x] < last
      {
        var i :| 0 <= i < |init| && init[i] == f[x];
        assert ids[i] == f[x];
      }
    }
  }

  /** A bucket in the file: its size, then for each entry the number under which it was written. */
  lemma BucketLayout(order: seq<nat>, bucket: set<nat>, i: nat)
    requires i < |bucket| && forall n :: n in bucket ==> n in order
    ensures |BucketTokens(order, bucket)| == 1 + |bucket| && |Ascending(bucket)| == |bucket|
    ensures BucketTokens(order, bucket)[0] == Number(|bucket|) && BucketTokens(order, bucket)[1 + i].Number?
    ensures var x := BucketTokens(order, bucket)[1 + i].n; 0 <= x < |order| && order[x] == Ascending(bucket)[i]
  {
    AscendingLists(bucket);
    hide Ascending, IndexOf;
    assert Ascending(bucket)[i] in bucket;
  }

  lemma BucketMembers(h: Hasher, key: nat, t: Tables)
    requires Linked(h, key, t, None)
    ensures forall b, n :: 0 <= b < |t.untried| && n in t.untried[b] ==> n in Part(t, false)
  {
    PartLists(h, key, t, false);
  }

  // ---------------------------------------------------------------- reading entries

  function EmptyTables(nTried: int, nNew: int): Tables {
    Tables(map[], map[], [], seq(BUCKETS, _ => []), seq(BUCKETS, _ => {}), nTried, nNew, 0)
  }

  /** Entry `i` of the saved tables as it is first rebuilt under the number `x`. */
  function Rebuilt(i: Info, x: nat): Info {
    Load(Save(i)).(randomPos := x, inTried := i.inTried)
  }

  /** Nothing is lost by giving the entries `order` of `src` the numbers 0, 1, ... */
  ghost predicate Orderly(src: Infos, order: seq<nat>) {
    && (forall x :: 0 <= x < |order| ==> order[x] in src)
    && (forall x, y :: 0 <= x < y < |order| ==> src[order[x]].addr.ip != src[order[y]].addr.ip)
  }

  ghost predicate InfosLoaded(info: Infos, src: Infos, order: seq<nat>, k: nat)
    requires Orderly(src, order) && k <= |order|
  {
    && (forall x: nat :: x in info <==> x < k)
    && (forall x :: 0 <= x < k ==> info[x] == Rebuilt(src[order[x]], x))
  }

  /** The first `k` entries of `order` have been read. */
  ghost predicate Loaded(m: Tables, src: Infos, order: seq<nat>, k: nat)
    requires Orderly(src, order) && k <= |order|
  {
    && InfosLoaded(m.info, src, order, k)
    && AddrOk(m.info, m.addr)
    && |m.random| == k && forall x :: 0 <= x < k ==> m.random[x] == x
  }

  /** `m` with one more entry, as both reading loops make it. */
  function Appended(m: Tables, i: Info): Tables {
    var n := |m.random|;
    m.(info := m.info[n := i.(randomPos := n)], addr := m.addr[i.addr.ip := n], random := m.random + [n])
  }

  lemma LoadOne(m: Tables, src: Infos, order: seq<nat>, k: nat, i: Info)
    requires Orderly(src, order) && k < |order| && Loaded(m, src, order, k)
    requires i == Load(Save(src[order[k]])).(inTried := src[order[k]].inTried)
    ensures Loaded(Appended(m, i), src, order, k + 1)
  {
    hide AddrOk;
    AddressNew(m, src, order, k);
    AppendAddr(m.info, m.addr, k, i.(randomPos := k));
  }

  lemma AddressNew(m: Tables, src: Infos, order: seq<nat>, k: nat)
    requires Orderly(src, order) && k < |order| && Loaded(m, src, order, k)
    ensures src[order[k]].addr.ip !in m.addr
  {
    forall a | a in m.addr
      ensures a != src[order[k]].addr.ip
    {
      var x := m.addr[a];
      assert m.info[x] == Rebuilt(src[order[x]], x);
    }
  }

  lemma AppendAddr(info: Infos, addr: map<nat, nat>, n: nat, i: Info)
    requires AddrOk(info, addr) && n !in info && i.addr.ip !in addr
    ensures AddrOk(info[n := i], addr[i.addr.ip := n])
  {
  }

  lemma NextEntry(src: Infos, order: seq<nat>, k: nat, b: nat, tail: Stream, s: Stream)
    requires Orderly(src, order) && k < b <= |order|
    requires s == Entries(src, order[k..b]) + tail
    ensures s != [] && s[0] == Entry(Save(src[order[k]])) && s[1..] == Entries(src, order[k + 1..b]) + tail
  {
    var ids := order[k..b];
    assert ids[0] == order[k] && ids[1..] == order[k + 1..b];
    assert Entries(src, ids) == [Entry(Save(src[order[k]]))] + Entries(src, ids[1..]);
  }

  lemma NoEntries(src: Infos, order: seq<nat>, b: nat, tail: Stream)
    requires b <= |order| && Orderly(src, order)
    ensures Entries(src, order[b..b]) + tail == tail
  {
    assert order[b..b] == [];
  }

  ghost predicate StartsWithNew(s: Stream, nNew: nat, src: Infos, order: seq<nat>, tail: Stream)
    requires Orderly(src, order)
  {
    && nNew <= |order| && s == Entries(src, order[..nNew]) + tail
    && forall x :: 0 <= x < nNew ==> !src[order[x]].inTried
  }

  /** The first loop of Unserialize. `order` and the rest describe a well-formed stream, if this is one. */
  method ReadNew(h: Hasher, key: nat, s: Stream, nNew: nat, nTried: int, rebucket: bool,
                 ghost src: Infos, ghost order: seq<nat>, ghost tail: Stream)
    returns (ok: bool, rest: Stream, m: Tables)
    requires Orderly(src, order)
    ensures !rebucket && StartsWithNew(s, nNew, src, order, tail) ==>
      && ok && rest == tail && Loaded(m, src, order, nNew)
      && m == EmptyTables(nTried, nNew).(info := m.info, addr := m.addr, random := m.random)
    ensures ok ==> |m.random| == nNew && m.nTried == nTried && |m.tried| == |m.untried| == BUCKETS
  {
    hide AddrOk, Entries, InfosLoaded;
    ghost var good := !rebucket && StartsWithNew(s, nNew, src, order, tail);
    rest, m := s, EmptyTables(nTried, nNew);
    LoadedNone(src, order, m);
    assert good ==> order[..nNew] == order[0..nNew];
    for n := 0 to nNew
      invariant |m.random| == n && m.nTried == nTried && |m.tried| == |m.untried| == BUCKETS
      invariant good ==> rest == Entries(src, order[n..nNew]) + tail && Loaded(m, src, order, n)
      invariant good ==> m == EmptyTables(nTried, nNew).(info := m.info, addr := m.addr, random := m.random)
    {
      if good {
        NextEntry(src, order, n, nNew, tail, rest);
        LoadOne(m, src, order, n, Load(Save(src[order[n]])));
      }
      if rest == [] || !rest[0].Entry? {
        return false, rest, m;
      }
      var i := Load(rest[0].e);
      rest := rest[1..];
      m := Appended(m, i);
      if rebucket {
        var b := NewBucket(h, key, i.addr, i.source);
        m := m.(untried := m.untried[b := m.untried[b] + {n}],
                info := m.info[n := m.info[n].(refCount := m.info[n].refCount + 1)]);
      }
    }
    if good {
      NoEntries(src, order, nNew, tail);
    }
    return true, rest, m;
  }

  lemma LoadedNone(src: Infos, order: seq<nat>, m: Tables)
    requires Orderly(src, order) && m.info == map[] && m.addr == map[] && m.random == []
    ensures Loaded(m, src, order, 0)
  {
  }

  // ---------------------------------------------------------------- reading the tried entries

  /** The tried buckets hold the entries numbered from `start` up to `k`, each where its hash says. */
  ghost predicate TriedLoaded(h: Hasher, key: nat, tried: seq<seq<nat>>, src: Infos, order: seq<nat>, start: nat, k: nat)
    requires Orderly(src, order) && k <= |order|
  {
    && |tried| == BUCKETS
    && (forall b :: 0 <= b < BUCKETS ==> NoDuplicates(tried[b]) && |tried[b]| <= BUCKET_SIZE)
    && (forall b, i :: 0 <= b < BUCKETS && 0 <= i < |tried[b]| ==>
          start <= tried[b][i] < k && TriedBucket(h, key, src[order[tried[b][i]]].addr) == b)
    && (forall x: nat :: start <= x < k ==> x in tried[TriedBucket(h, key, src[order[x]].addr)])
  }

  /** The saved tables had room for every tried entry, so the rebuilt buckets have it too. */
  lemma RoomAgain(h: Hasher, key: nat, t: Tables, tried: seq<seq<nat>>, k: nat)
    requires Linked(h, key, t, None) && Orderly(t.info, Order(t)) && t.nNew <= k < |Order(t)| && t.nNew >= 0
    requires TriedLoaded(h, key, tried, t.info, Order(t), t.nNew, k)
    ensures |tried[TriedBucket(h, key, t.info[Order(t)[k]].addr)]| < BUCKET_SIZE
  {
    hide RandomOk, AddrOk, NewBucketsOk, RefsOk, CountsOk, TriedOk, Order, NoDuplicates;
    var order := Order(t);
    var b := TriedBucket(h, key, t.info[order[k]].addr);
    OrderLists(h, key, t);
    RoomInBucket(h, key, t.info, t.tried, order, t.nNew, tried[b], b, k);
  }

  lemma RoomInBucket(h: Hasher, key: nat, info: Infos, tried0: seq<seq<nat>>, order: seq<nat>, start: nat,
                     bucket: seq<nat>, b: nat, k: nat)
    requires TriedOk(h, key, info, tried0) && start <= k < |order| && NoDuplicates(order) && b < BUCKETS
    requires forall x :: 0 <= x < |order| ==> order[x] in info && (info[order[x]].inTried <==> x >= start)
    requires NoDuplicates(bucket) && TriedBucket(h, key, info[order[k]].addr) == b
    requires forall i :: 0 <= i < |bucket| ==> start <= bucket[i] < k && TriedBucket(h, key, info[order[bucket[i]]].addr) == b
    ensures |bucket| < BUCKET_SIZE
  {
    var ids := seq(|bucket|, i requires 0 <= i < |bucket| => order[bucket[i]]);
    var all := ids + [order[k]];
    assert TriedBucketOk(h, key, info, tried0[b], b);
    var bound := set n | n in tried0[b];
    CoveredBy(tried0[b], bound);
    forall i, j | 0 <= i < j < |all|
      ensures all[i] != all[j]
    {
      assert bucket[i] < k;
    }
    forall i | 0 <= i < |all|
      ensures all[i] in bound
    {
      assert info[all[i]].inTried && TriedBucket(h, key, info[all[i]].addr) == b;
    }
    DistinctFitIn(all, bound);
  }

  lemma TriedStep(h: Hasher, key: nat, tried: seq<seq<nat>>, src: Infos, order: seq<nat>, start: nat, k: nat)
    requires Orderly(src, order) && start <= k < |order| && TriedLoaded(h, key, tried, src, order, start, k)
    requires |tried[TriedBucket(h, key, src[order[k]].addr)]| < BUCKET_SIZE
    ensures var b := TriedBucket(h, key, src[order[k]].addr);
      TriedLoaded(h, key, tried[b := tried[b] + [k]], src, order, start, k + 1)
  {
    var b := TriedBucket(h, key, src[order[k]].addr);
    assert k !in tried[b];
  }

  /** `m` with one more tried entry. */
  function AppendedTried(h: Hasher, key: nat, m: Tables, i: Info): Tables
    requires |m.tried| == BUCKETS
  {
    var b := TriedBucket(h, key, i.addr);
    Appended(m, i.(inTried := true)).(tried := m.tried[b := m.tried[b] + [m.idCount]], idCount := m.idCount + 1)
  }

  lemma LoadOneTried(h: Hasher, key: nat, m: Tables, src: Infos, order: seq<nat>, k: nat)
    requires Orderly(src, order) && k < |order| && Loaded(m, src, order, k) && |m.tried| == BUCKETS && src[order[k]].inTried
    ensures Loaded(AppendedTried(h, key, m, Load(Save(src[order[k]]))), src, order, k + 1)
  {
    hide AddrOk, InfosLoaded;
    LoadOne(m, src, order, k, Load(Save(src[order[k]])).(inTried := true));
  }

  /** The second loop of Unserialize; an entry is lost when its bucket is full. */
  method ReadTried(h: Hasher, key: nat, s: Stream, m0: Tables, ghost t: Tables, ghost tail: Stream)
    returns (ok: bool, rest: Stream, m: Tables)
    requires m0.nTried >= 0 && |m0.tried| == BUCKETS && m0.idCount == |m0.random|
    ensures Linked(h, key, t, None) && TriedComes(h, key, s, m0, t, tail) ==>
      && ok && rest == tail && Loaded(m, t.info, Order(t), |Order(t)|)
      && TriedLoaded(h, key, m.tried, t.info, Order(t), t.nNew, |Order(t)|)
      && m.nTried == m0.nTried && m.nNew == m0.nNew && m.idCount == |Order(t)|
    ensures m.untried == m0.untried
  {
    hide AddrOk, Entries, InfosLoaded, Linked, Order, TriedLoaded, TriedBucket;
    rest, m := s, m0;
    var lost := 0;
    ghost var good := Linked(h, key, t, None) && TriedComes(h, key, s, m0, t, tail);
    if good {
      OrderLists(h, key, t);
    }
    ghost var order := Order(t);
    assert good ==> order[t.nNew..] == order[t.nNew..|order|];
    for n := 0 to m0.nTried
      invariant |m.tried| == BUCKETS && m.idCount == |m.random|
      invariant good ==> m.idCount == t.nNew + n && lost == 0
      invariant good ==> rest == Entries(t.info, order[t.nNew + n..|order|]) + tail
      invariant good ==> Loaded(m, t.info, order, t.nNew + n)
      invariant good ==> TriedLoaded(h, key, m.tried, t.info, order, t.nNew, t.nNew + n)
      invariant m == m0.(info := m.info, addr := m.addr, random := m.random, tried := m.tried, idCount := m.idCount)
    {
      if good {
        NextEntry(t.info, order, t.nNew + n, |order|, tail, rest);
        LoadOneTried(h, key, m, t.info, order, t.nNew + n);
        RoomAgain(h, key, t, m.tried, t.nNew + n);
        TriedStep(h, key, m.tried, t.info, order, t.nNew, t.nNew + n);
      }
      if rest == [] || !rest[0].Entry? {
        return false, rest, m;
      }
      var i := Load(rest[0].e);
      rest := rest[1..];
      var b := TriedBucket(h, key, i.addr);
      if |m.tried[b]| < BUCKET_SIZE {
        m := AppendedTried(h, key, m, i);
      } else {
        lost := lost + 1;
      }
    }
    if good {
      NoEntries(t.info, order, |order|, tail);
    }
    m := m.(nTried := m.nTried - lost);
    return true, rest, m;
  }

  /** The stream goes on with the tried entries of `t`, and `m0` holds its new ones. */
  ghost predicate TriedComes(h: Hasher, key: nat, s: Stream, m0: Tables, t: Tables, tail: Stream) {
    && Orderly(t.info, Order(t)) && 0 <= t.nNew <= |Order(t)| && m0.nTried == t.nTried == |Order(t)| - t.nNew
    && s == Entries(t.info, Order(t)[t.nNew..]) + tail
    && Loaded(m0, t.info, Order(t), t.nNew)
    && TriedLoaded(h, key, m0.tried, t.info, Order(t), t.nNew, t.nNew)
  }

  // ---------------------------------------------------------------- reading the new buckets

  /** References counted to `n` in the buckets below `b` and in `part` of bucket `b`. */
  ghost function RefsSoFar(untried: seq<set<nat>>, n: nat, b: nat, part: set<nat>): nat {
    |HoldersBelow(untried, n, b)| + if n in part then 1 else 0
  }

  /** The entry numbered `x` belongs to bucket `c`, as far as the buckets are read. */
  predicate InBucket(t: Tables, order: seq<nat>, b: nat, part: set<nat>, c: nat, x: nat)
    requires c < |t.untried|
  {
    x < |order| && ((c < b && order[x] in t.untried[c]) || (c == b && order[x] in part))
  }

  /** The buckets below `b`, and `part` of bucket `b`, are read. */
  ghost predicate UntriedLoaded(m: Tables, t: Tables, order: seq<nat>, b: nat, part: set<nat>)
    requires Orderly(t.info, order)
  {
    && |m.untried| == |t.untried| == BUCKETS
    && (forall c: nat, x: nat :: c < BUCKETS ==> (x in m.untried[c] <==> InBucket(t, order, b, part, c, x)))
    && (forall x: nat :: x in m.info <==> x < |order|)
    && (forall x: nat :: x < |order| ==>
          m.info[x] == Rebuilt(t.info[order[x]], x).(refCount := RefsSoFar(t.untried, order[x], b, part)))
  }

  /** `m` after one index `x` of bucket `b` is read. */
  function Joined(m: Tables, b: nat, x: nat): Tables
    requires b < |m.untried| && x in m.info
  {
    m.(info := m.info[x := m.info[x].(refCount := m.info[x].refCount + 1)],
       untried := m.untried[b := m.untried[b] + {x}])
  }

  /** The guard on the reference count never bars a reference that was saved. */
  lemma JoinStep(m: Tables, t: Tables, order: seq<nat>, b: nat, part: set<nat>, x: nat)
    requires Orderly(t.info, order) && NoDuplicates(order) && UntriedLoaded(m, t, order, b, part)
    requires b < BUCKETS && x < |order| && order[x] in t.untried[b] && order[x] !in part
    requires RefsOk(t.info, t.untried, None) && NewBucketsOk(t.info, t.untried)
    ensures m.info[x].refCount < MAX_REFS
    ensures UntriedLoaded(Joined(m, b, x), t, order, b, part + {order[x]})
  {
    hide Rebuilt;
    MoreToCome(t.untried, order[x], b);
    JoinedEntry(m, t, order, b, part, x);
    forall y: nat | y < |order|
      ensures Joined(m, b, x).info[y] ==
        Rebuilt(t.info[order[y]], y).(refCount := RefsSoFar(t.untried, order[y], b, part + {order[x]}))
    {
      if y != x {
        JoinedOther(m, t, order, b, part, x, y);
      }
    }
    forall c: nat, y: nat | c < BUCKETS
      ensures y in Joined(m, b, x).untried[c] <==> InBucket(t, order, b, part + {order[x]}, c, y)
    {
      JoinedBucket(m, t, order, b, part, x, c, y);
    }
  }

  /** The entry that gains the reference. */
  lemma JoinedEntry(m: Tables, t: Tables, order: seq<nat>, b: nat, part: set<nat>, x: nat)
    requires Orderly(t.info, order) && UntriedLoaded(m, t, order, b, part)
    requires b < BUCKETS && x < |order| && order[x] !in part
    ensures m.info[x].refCount == RefsSoFar(t.untried, order[x], b, part) == |HoldersBelow(t.untried, order[x], b)|
    ensures Joined(m, b, x).info[x] ==
      Rebuilt(t.info[order[x]], x).(refCount := RefsSoFar(t.untried, order[x], b, part + {order[x]}))
  {
    hide Rebuilt, HoldersBelow;
  }

  /** Every other entry. */
  lemma JoinedOther(m: Tables, t: Tables, order: seq<nat>, b: nat, part: set<nat>, x: nat, y: nat)
    requires Orderly(t.info, order) && NoDuplicates(order) && UntriedLoaded(m, t, order, b, part)
    requires b < BUCKETS && x < |order| && y < |order| && x != y
    ensures Joined(m, b, x).info[y] ==
      Rebuilt(t.info[order[y]], y).(refCount := RefsSoFar(t.untried, order[y], b, part + {order[x]}))
  {
    hide Rebuilt, HoldersBelow;
    assert order[y] != order[x];
  }

  /** Every bucket. */
  lemma JoinedBucket(m: Tables, t: Tables, order: seq<nat>, b: nat, part: set<nat>, x: nat, c: nat, y: nat)
    requires Orderly(t.info, order) && NoDuplicates(order) && UntriedLoaded(m, t, order, b, part)
    requires b < BUCKETS && x < |order| && c < BUCKETS
    ensures y in Joined(m, b, x).untried[c] <==> InBucket(t, order, b, part + {order[x]}, c, y)
  {
    hide Rebuilt, RefsSoFar;
    assert y in m.untried[c] <==> InBucket(t, order, b, part, c, y);
    assert y < |order| && y != x ==> order[y] != order[x];
  }

  lemma MoreToCome(untried: seq<set<nat>>, n: nat, b: nat)
    requires b < |untried| && n in untried[b]
    ensures |HoldersBelow(untried, n, b)| < |Holders(untried, n)|
  {
    HoldersBelowStep(untried, n, b);
    assert HoldersBelow(untried, n, b + 1) <= Holders(untried, n);
    CardinalitySubset(HoldersBelow(untried, n, b + 1), Holders(untried, n));
  }

  lemma NextBucket(m: Tables, t: Tables, order: seq<nat>, b: nat)
    requires Orderly(t.info, order) && b < BUCKETS && |t.untried| == BUCKETS
    requires UntriedLoaded(m, t, order, b, t.untried[b])
    ensures UntriedLoaded(m, t, order, b + 1, {})
  {
    hide HoldersBelow;
    forall x: nat | x < |order|
      ensures RefsSoFar(t.untried, order[x], b + 1, {}) == RefsSoFar(t.untried, order[x], b, t.untried[b])
    {
      HoldersBelowStep(t.untried, order[x], b);
    }
  }

  /** One bucket: its size, then as many indices. */
  method ReadBucket(s: Stream, m0: Tables, b: nat, nBuckets: nat, ghost t: Tables, ghost order: seq<nat>, ghost tail: Stream)
    returns (ok: bool, rest: Stream, m: Tables)
    requires b < |m0.untried| && Orderly(t.info, order)
    ensures |m.untried| == |m0.untried|
    ensures nBuckets == BUCKETS && b < BUCKETS && BucketComes(s, m0, t, order, b, tail) ==>
      ok && rest == tail && UntriedLoaded(m, t, order, b + 1, {}) && m == m0.(info := m.info, untried := m.untried)
  {
    hide UntriedLoaded, RefsOk, NewBucketsOk, Indices, Ascending;
    rest, m := s, m0;
    ghost var good := nBuckets == BUCKETS && b < BUCKETS && BucketComes(s, m0, t, order, b, tail);
    ghost var bucket := if good then t.untried[b] else {};
    AscendingLists(bucket);
    ghost var ids := Ascending(bucket);
    if rest == [] || !rest[0].Number? {
      return false, rest, m;
    }
    var size := rest[0].n;
    rest := rest[1..];
    if size < 0 {
      return true, rest, m;
    }
    ghost var part: set<nat> := {};
    assert good ==> size == |ids|;
    assert good ==> rest == Indices(order, ids[0..]) + tail by {
      assert ids[0..] == ids;
    }
    for i := 0 to size
      invariant |m.untried| == |m0.untried|
      invariant good ==> rest == Indices(order, ids[i..]) + tail
      invariant good ==> part == set n | n in ids[..i]
      invariant good ==> UntriedLoaded(m, t, order, b, part) && m == m0.(info := m.info, untried := m.untried)
    {
      if good {
        NextIndex(order, ids, i, tail, rest);
        IndexKnown(m, t, order, b, part, ids[i]);
        JoinStep(m, t, order, b, part, IndexOf(order, ids[i]));
        assert ids[..i + 1] == ids[..i] + [ids[i]];
      }
      if rest == [] || !rest[0].Number? || rest[0].n < 0 {
        return false, rest, m;
      }
      var x := rest[0].n;
      rest := rest[1..];
      if x !in m.info {
        m := m.(info := m.info[x := NewInfo(Address(0, 0, {}, 0), 0)]);
      }
      if nBuckets == BUCKETS && m.info[x].refCount < MAX_REFS {
        m := Joined(m, b, x);
      }
      part := part + {if i < |ids| then ids[i] else 0};
    }
    if good {
      assert part == bucket;
      NextBucket(m, t, order, b);
      assert Indices(order, ids[size..]) + tail == tail by {
        NoMoreIndices(order, ids, tail);
      }
    }
    return true, rest, m;
  }

  /** The stream goes on with bucket `b` of `t`. */
  ghost predicate BucketComes(s: Stream, m0: Tables, t: Tables, order: seq<nat>, b: nat, tail: Stream)
    requires Orderly(t.info, order) && b < BUCKETS
  {
    && NoDuplicates(order) && RefsOk(t.info, t.untried, None) && NewBucketsOk(t.info, t.untried)
    && |t.untried| == BUCKETS && (forall n :: n in t.untried[b] ==> n in order)
    && s == BucketTokens(order, t.untried[b]) + tail
    && UntriedLoaded(m0, t, order, b, {})
  }

  lemma NextIndex(order: seq<nat>, ids: seq<nat>, i: nat, tail: Stream, s: Stream)
    requires i < |ids| && s == Indices(order, ids[i..]) + tail
    ensures s != [] && s[0] == Number(IndexOf(order, ids[i])) && s[1..] == Indices(order, ids[i + 1..]) + tail
  {
    assert ids[i..][0] == ids[i] && ids[i..][1..] == ids[i + 1..];
    assert Indices(order, ids[i..]) == [Number(IndexOf(order, ids[i]))] + Indices(order, ids[i + 1..]);
  }

  lemma NoMoreIndices(order: seq<nat>, ids: seq<nat>, tail: Stream)
    ensures Indices(order, ids[|ids|..]) + tail == tail
  {
  }

  lemma IndexKnown(m: Tables, t: Tables, order: seq<nat>, b: nat, part: set<nat>, n: nat)
    requires Orderly(t.info, order) && UntriedLoaded(m, t, order, b, part) && n in order
    ensures IndexOf(order, n) < |order| && order[IndexOf(order, n)] == n && IndexOf(order, n) in m.info
  {
  }

  /** The last loop of Unserialize. */
  method ReadBuckets(s: Stream, m0: Tables, nBuckets: nat, ghost t: Tables, ghost order: seq<nat>)
    returns (ok: bool, m: Tables)
    requires Orderly(t.info, order) && |m0.untried| == BUCKETS
    ensures nBuckets == BUCKETS && BucketsCome(s, m0, t, order) ==>
      ok && UntriedLoaded(m, t, order, BUCKETS, {}) && m == m0.(info := m.info, untried := m.untried)
  {
    hide UntriedLoaded, BucketTokens, RefsOk, NewBucketsOk;
    ghost var good := nBuckets == BUCKETS && BucketsCome(s, m0, t, order);
    m := m0;
    var rest := s;
    for b := 0 to nBuckets
      invariant |m.untried| == BUCKETS
      invariant good ==> rest == BucketsFrom(order, t.untried, b)
      invariant good ==> UntriedLoaded(m, t, order, b, {}) && m == m0.(info := m.info, untried := m.untried)
    {
      if b >= |m.untried| {
        return false, m;
      }
      ghost var tail := if good then BucketsFrom(order, t.untried, b + 1) else [];
      var bucketOk;
      bucketOk, rest, m := ReadBucket(rest, m, b, nBuckets, t, order, tail);
      if !bucketOk {
        return false, m;
      }
    }
    return true, m;
  }

  /** The stream goes on with all new buckets of `t`. */
  ghost predicate BucketsCome(s: Stream, m0: Tables, t: Tables, order: seq<nat>)
    requires Orderly(t.info, order)
  {
    && NoDuplicates(order) && RefsOk(t.info, t.untried, None) && NewBucketsOk(t.info, t.untried)
    && |t.untried| == BUCKETS && (forall b, n :: 0 <= b < BUCKETS && n in t.untried[b] ==> n in order)
    && s == BucketsFrom(order, t.untried, 0)
    && UntriedLoaded(m0, t, order, 0, {})
  }

  // ---------------------------------------------------------------- Unserialize

  lemma {:induction false} IndexInFront(a: seq<nat>, b: seq<nat>, n: nat)
    requires n in a
    ensures IndexOf(a + b, n) == IndexOf(a, n)
  {
    assert (a + b)[0] == a[0];
    if a[0] != n {
      assert (a + b)[1..] == a[1..] + b;
      IndexInFront(a[1..], b, n);
    }
  }

  lemma {:induction false} BucketsInFront(a: seq<nat>, c: seq<nat>, untried: seq<set<nat>>, b: nat)
    requires b <= |untried| && forall i, n :: 0 <= i < |untried| && n in untried[i] ==> n in a
    ensures BucketsFrom(a + c, untried, b) == BucketsFrom(a, untried, b)
    decreases |untried| - b
  {
    hide BucketTokens;
    if b < |untried| {
      BucketsInFront(a, c, untried, b + 1);
      BucketInFront(a, c, untried[b]);
    }
  }

  lemma BucketInFront(a: seq<nat>, c: seq<nat>, bucket: set<nat>)
    requires forall n :: n in bucket ==> n in a
    ensures BucketTokens(a + c, bucket) == BucketTokens(a, bucket)
  {
    hide IndexOf;
    var ids := Ascending(bucket);
    AscendingLists(bucket);
    hide Ascending;
    forall i | 0 <= i < |ids|
      ensures IndexOf(a + c, ids[i]) == IndexOf(a, ids[i])
    {
      assert ids[i] in bucket;
      IndexInFront(a, c, ids[i]);
    }
    assert Indices(a + c, ids) == Indices(a, ids);
  }

  lemma OrderOrderly(h: Hasher, key: nat, t: Tables)
    requires Linked(h, key, t, None)
    ensures Orderly(t.info, Order(t)) && 0 <= t.nNew <= |Order(t)|
    ensures t.nTried == |Order(t)| - t.nNew
  {
    hide TriedOk, RandomOk, NewBucketsOk, RefsOk, CountsOk, Order;
    OrderLists(h, key, t);
    var order := Order(t);
    forall x, y | 0 <= x < y < |order|
      ensures t.info[order[x]].addr.ip != t.info[order[y]].addr.ip
    {
      assert order[x] != order[y];
    }
  }

  /** What follows the header in the saved form, in terms of the file order. */
  lemma WrittenParts(h: Hasher, key: nat, t: Tables)
    requires Linked(h, key, t, None) && Orderly(t.info, Order(t)) && 0 <= t.nNew <= |Order(t)|
    ensures Written(key, t) == Header(key, t) + (Entries(t.info, Order(t)[..t.nNew]) +
      (Entries(t.info, Order(t)[t.nNew..]) + BucketsFrom(Order(t), t.untried, 0)))
  {
    hide Linked, Entries, Part, BucketsFrom;
    OrderLists(h, key, t);
    BucketMembers(h, key, t);
    BucketsInFront(Part(t, false), Part(t, true), t.untried, 0);
    assert Order(t)[..t.nNew] == Part(t, false) && Order(t)[t.nNew..] == Part(t, true);
    assert Entries(t.info, Order(t)[..t.nNew]) == Entries(t.info, Part(t, false));
    assert Entries(t.info, Order(t)[t.nNew..]) == Entries(t.info, Part(t, true));
    assert BucketsFrom(Order(t), t.untried, 0) == BucketsFrom(Part(t, false), t.untried, 0);
  }

  /**
   `m` is `t` with entry `order[x]` renumbered to `x`: the same addresses and saved statistics, the same
   bucket membership and reference counts, nothing lost and nothing added.
   */
  ghost predicate Isomorphic(t: Tables, m: Tables, order: seq<nat>) {
    && NoDuplicates(order) && (forall n :: n in t.info <==> n in order)
    && (forall x: nat :: x in m.info <==> x < |order|)
    && (forall x: nat :: x < |order| ==>
          && order[x] in t.info
          && m.info[x].addr == t.info[order[x]].addr && m.info[x].source == t.info[order[x]].source
          && m.info[x].lastSuccess == t.info[order[x]].lastSuccess && m.info[x].attempts == t.info[order[x]].attempts
          && m.info[x].inTried == t.info[order[x]].inTried && m.info[x].refCount == t.info[order[x]].refCount)
    && |m.untried| == |t.untried| && |m.tried| == |t.tried|
    && (forall b, x: nat :: 0 <= b < |t.untried| && x < |order| ==> (x in m.untried[b] <==> order[x] in t.untried[b]))
    && (forall b, x: nat :: 0 <= b < |t.tried| && x < |order| ==> (x in m.tried[b] <==> order[x] in t.tried[b]))
    && m.addr.Keys == t.addr.Keys
    && m.nTried == t.nTried && m.nNew == t.nNew
  }

  /** All loops are done. */
  ghost predicate AllRead(h: Hasher, key: nat, t: Tables, m: Tables) {
    && Orderly(t.info, Order(t)) && 0 <= t.nNew <= |Order(t)|
    && UntriedLoaded(m, t, Order(t), BUCKETS, {})
    && TriedLoaded(h, key, m.tried, t.info, Order(t), t.nNew, |Order(t)|)
    && AddrOk(m.info, m.addr)
    && |m.random| == |Order(t)| && (forall x :: 0 <= x < |Order(t)| ==> m.random[x] == x)
    && m.nTried == t.nTried && m.nNew == t.nNew && m.idCount == |Order(t)|
  }

  ghost function NumbersBelow(n: nat): (s: set<nat>)
    ensures |s| == n && forall x: nat :: x in s <==> x < n
  {
    if n == 0 then {} else NumbersBelow(n - 1) + {n - 1}
  }

  lemma {:induction false} PreimageFits(order: seq<nat>, a: set<nat>, b: set<nat>)
    requires NoDuplicates(order) && forall x :: x in a ==> x < |order| && order[x] in b
    ensures |a| <= |b|
  {
    if a != {} {
      var x :| x in a;
      forall y | y in a - {x}
        ensures order[y] in b - {order[x]}
      {
      }
      PreimageFits(order, a - {x}, b - {order[x]});
    }
  }

  lemma ReadCounts(h: Hasher, key: nat, t: Tables, m: Tables)
    requires Linked(h, key, t, None) && AllRead(h, key, t, m)
    ensures CountsOk(m)
  {
    hide TriedOk, RandomOk, NewBucketsOk, RefsOk, AddrOk, TriedLoaded;
    OrderLists(h, key, t);
    ReadSplit(m, t, Order(t));
    IdsSplit(m.info);
  }

  lemma ReadSplit(m: Tables, t: Tables, order: seq<nat>)
    requires Orderly(t.info, order) && UntriedLoaded(m, t, order, BUCKETS, {}) && 0 <= t.nNew <= |order|
    requires forall x :: 0 <= x < |order| ==> (t.info[order[x]].inTried <==> x >= t.nNew)
    ensures |IdsWhere(m.info, false)| == t.nNew && |m.info| == |order|
    ensures forall x :: x in m.info ==> x < |order|
  {
    hide RefsSoFar;
    forall x: nat | x < |order|
      ensures m.info[x].inTried <==> x >= t.nNew
    {
    }
    assert IdsWhere(m.info, false) == NumbersBelow(t.nNew);
    assert m.info.Keys == NumbersBelow(|order|);
    assert |m.info| == |m.info.Keys|;
  }

  lemma ReadRefs(h: Hasher, key: nat, t: Tables, m: Tables)
    requires Linked(h, key, t, None) && AllRead(h, key, t, m)
    ensures NewBucketsOk(m.info, m.untried) && RefsOk(m.info, m.untried, None)
    ensures forall x: nat :: x < |Order(t)| ==> m.info[x].refCount == t.info[Order(t)[x]].refCount
  {
    hide TriedOk, RandomOk, CountsOk, AddrOk, TriedLoaded, Order, RefsOk, NewBucketsOk, UntriedLoaded;
    OrderLists(h, key, t);
    ReadNewBuckets(m, t, Order(t));
    ReadRefCounts(m, t, Order(t));
  }

  lemma ReadNewBuckets(m: Tables, t: Tables, order: seq<nat>)
    requires Orderly(t.info, order) && UntriedLoaded(m, t, order, BUCKETS, {}) && NoDuplicates(order)
    requires NewBucketsOk(t.info, t.untried)
    ensures NewBucketsOk(m.info, m.untried)
  {
    hide RefsSoFar;
    forall b: nat | b < BUCKETS
      ensures |m.untried[b]| <= BUCKET_SIZE
      ensures forall x :: x in m.untried[b] ==> x in m.info && !m.info[x].inTried
    {
      ReadBucketFits(m, t, order, b);
    }
  }

  lemma UntriedMember(m: Tables, t: Tables, order: seq<nat>, b: nat, x: nat)
    requires Orderly(t.info, order) && UntriedLoaded(m, t, order, BUCKETS, {}) && b < BUCKETS
    ensures x in m.untried[b] <==> x < |order| && order[x] in t.untried[b]
  {
  }

  lemma ReadBucketFits(m: Tables, t: Tables, order: seq<nat>, b: nat)
    requires Orderly(t.info, order) && UntriedLoaded(m, t, order, BUCKETS, {}) && b < BUCKETS && NoDuplicates(order)
    requires NewBucketsOk(t.info, t.untried)
    ensures |m.untried[b]| <= BUCKET_SIZE
    ensures forall x :: x in m.untried[b] ==> x in m.info && !m.info[x].inTried
  {
    hide RefsSoFar;
    forall x | x in m.untried[b]
      ensures x < |order| && order[x] in t.untried[b]
    {
      UntriedMember(m, t, order, b, x);
    }
    PreimageFits(order, m.untried[b], t.untried[b]);
  }

  lemma ReadHolders(m: Tables, t: Tables, order: seq<nat>, x: nat)
    requires Orderly(t.info, order) && UntriedLoaded(m, t, order, BUCKETS, {}) && x < |order|
    ensures m.info[x].refCount == |Holders(m.untried, x)| == |Holders(t.untried, order[x])|
    ensures m.info[x].inTried == t.info[order[x]].inTried
  {
    forall b: nat | b < BUCKETS
      ensures x in m.untried[b] <==> order[x] in t.untried[b]
    {
      UntriedMember(m, t, order, b, x);
    }
    assert Holders(m.untried, x) == Holders(t.untried, order[x]);
    assert HoldersBelow(t.untried, order[x], BUCKETS) == Holders(t.untried, order[x]);
  }

  lemma ReadRefCounts(m: Tables, t: Tables, order: seq<nat>)
    requires Orderly(t.info, order) && NewBucketsOk(t.info, t.untried) && RefsOk(t.info, t.untried, None)
    requires UntriedLoaded(m, t, order, BUCKETS, {})
    ensures forall x: nat :: x < |order| ==> x in m.info
    ensures RefsOk(m.info, m.untried, None)
    ensures forall x: nat :: x < |order| ==> m.info[x].refCount == t.info[order[x]].refCount
  {
    hide Holders, RefsSoFar;
    forall x: nat | x < |order|
      ensures m.info[x].refCount == |Holders(m.untried, x)| == t.info[order[x]].refCount
      ensures m.info[x].inTried == t.info[order[x]].inTried
    {
      ReadHolders(m, t, order, x);
      if t.info[order[x]].inTried {
        HeldNowhere(t.untried, order[x]);
      }
    }
  }

  lemma ReadTriedOk(h: Hasher, key: nat, t: Tables, m: Tables)
    requires Linked(h, key, t, None) && AllRead(h, key, t, m)
    ensures TriedOk(h, key, m.info, m.tried)
  {
    hide RandomOk, NewBucketsOk, RefsOk, CountsOk, AddrOk, TriedOk, Order, RefsSoFar;
    OrderLists(h, key, t);
    var order := Order(t);
    ReadTriedBuckets(h, key, t, m, order);
  }

  lemma ReadTriedBuckets(h: Hasher, key: nat, t: Tables, m: Tables, order: seq<nat>)
    requires Orderly(t.info, order) && 0 <= t.nNew && UntriedLoaded(m, t, order, BUCKETS, {})
    requires TriedLoaded(h, key, m.tried, t.info, order, t.nNew, |order|)
    requires forall x :: 0 <= x < |order| ==> (t.info[order[x]].inTried <==> x >= t.nNew)
    ensures TriedOk(h, key, m.info, m.tried)
  {
    hide RefsSoFar;
    forall b: nat | b < BUCKETS
      ensures TriedBucketOk(h, key, m.info, m.tried[b], b)
    {
      forall i | 0 <= i < |m.tried[b]|
        ensures var x := m.tried[b][i]; x in m.info && m.info[x].inTried && TriedBucket(h, key, m.info[x].addr) == b
      {
        assert m.info[m.tried[b][i]].addr == t.info[order[m.tried[b][i]]].addr;
      }
    }
  }

  lemma ReadStats(t: Tables, m: Tables, order: seq<nat>)
    requires Orderly(t.info, order) && UntriedLoaded(m, t, order, BUCKETS, {}) && AllStatsOk(t.info)
    ensures AllStatsOk(m.info)
  {
    hide RefsSoFar;
    forall x | x in m.info
      ensures StatsOk(m.info[x])
    {
      assert StatsOk(t.info[order[x]]);
    }
  }

  lemma ReadRandom(h: Hasher, key: nat, t: Tables, m: Tables)
    requires AllRead(h, key, t, m)
    ensures RandomOk(m.info, m.random)
  {
    hide TriedLoaded, AddrOk, Order, RefsSoFar;
  }

  lemma ReadConsistent(h: Hasher, key: nat, t: Tables, m: Tables)
    requires Consistent(h, key, t) && AllRead(h, key, t, m)
    ensures Consistent(h, key, m)
  {
    hide TriedOk, RandomOk, NewBucketsOk, RefsOk, CountsOk, AllStatsOk, TriedLoaded, UntriedLoaded;
    ReadCounts(h, key, t, m);
    ReadRefs(h, key, t, m);
    ReadTriedOk(h, key, t, m);
    ReadStats(t, m, Order(t));
    ReadRandom(h, key, t, m);
  }

  lemma SameTried(h: Hasher, key: nat, t: Tables, m: Tables, b: nat, x: nat)
    requires Linked(h, key, t, None) && AllRead(h, key, t, m) && b < BUCKETS && x < |Order(t)|
    ensures x in m.tried[b] <==> Order(t)[x] in t.tried[b]
  {
    hide RandomOk, NewBucketsOk, RefsOk, CountsOk, AddrOk, Order, UntriedLoaded;
    OrderLists(h, key, t);
    var n := Order(t)[x];
    assert TriedBucketOk(h, key, t.info, t.tried[b], b);
  }

  lemma SameAddresses(h: Hasher, key: nat, t: Tables, m: Tables)
    requires Linked(h, key, t, None) && AllRead(h, key, t, m)
    ensures m.addr.Keys == t.addr.Keys
  {
    hide RandomOk, AddrOk, NewBucketsOk, RefsOk, CountsOk, TriedOk, Order, TriedLoaded, UntriedLoaded;
    OrderLists(h, key, t);
    var order := Order(t);
    forall x: nat | x < |order|
      ensures x in m.info && m.info[x].addr == t.info[order[x]].addr
    {
      RebuiltAddress(m, t, order, x);
    }
    forall x | x in m.info
      ensures x < |order|
    {
      NoOtherNumbers(m, t, order, x);
    }
    Renumbered(t.info, t.addr, m.info, m.addr, order);
  }

  lemma RebuiltAddress(m: Tables, t: Tables, order: seq<nat>, x: nat)
    requires Orderly(t.info, order) && UntriedLoaded(m, t, order, BUCKETS, {}) && x < |order|
    ensures x in m.info && m.info[x].addr == t.info[order[x]].addr
  {
  }

  lemma NoOtherNumbers(m: Tables, t: Tables, order: seq<nat>, x: nat)
    requires Orderly(t.info, order) && UntriedLoaded(m, t, order, BUCKETS, {}) && x in m.info
    ensures x < |order|
  {
  }

  lemma Renumbered(info: Infos, addr: map<nat, nat>, info': Infos, addr': map<nat, nat>, order: seq<nat>)
    requires AddrOk(info, addr) && AddrOk(info', addr')
    requires forall n :: n in info <==> n in order
    requires forall x: nat :: x < |order| ==> x in info' && order[x] in info && info'[x].addr == info[order[x]].addr
    requires forall x :: x in info' ==> x < |order|
    ensures addr'.Keys == addr.Keys
  {
    forall a | a in addr
      ensures a in addr'
    {
      var x: nat :| x < |order| && order[x] == addr[a];
      assert info'[x].addr.ip == a;
    }
    forall a | a in addr'
      ensures a in addr
    {
      assert info[order[addr'[a]]].addr.ip == a;
    }
  }

  lemma ReadIsomorphic(h: Hasher, key: nat, t: Tables, m: Tables)
    requires Linked(h, key, t, None) && AllRead(h, key, t, m)
    ensures Isomorphic(t, m, Order(t))
  {
    hide RandomOk, NewBucketsOk, RefsOk, CountsOk, TriedOk, AddrOk, TriedLoaded, Order, RefsSoFar, NoDuplicates;
    OrderLists(h, key, t);
    ReadRefs(h, key, t, m);
    SameAddresses(h, key, t, m);
    Shapes(h, key, t, None);
    assert |m.tried| == BUCKETS by {
      ReadTriedOk(h, key, t, m);
      Wide(h, key, m.info, m.tried);
    }
    forall b: nat, x: nat | b < BUCKETS && x < |Order(t)|
      ensures x in m.tried[b] <==> Order(t)[x] in t.tried[b]
    {
      SameTried(h, key, t, m, b, x);
    }
  }

  lemma Wide(h: Hasher, key: nat, info: Infos, tried: seq<seq<nat>>)
    requires TriedOk(h, key, info, tried)
    ensures |tried| == BUCKETS
  {
  }

  /**
   CAddrMan::Unserialize. Reading back what Serialize wrote for consistent tables succeeds, and yields
   consistent tables that are isomorphic to them under the renumbering by file order.
   */
  method Unserialize(h: Hasher, s: Stream, ghost key0: nat, ghost t: Tables)
    returns (ok: bool, key: nat, m: Tables)
    ensures Consistent(h, key0, t) && s == Written(key0, t) ==>
      && ok && key == key0
      && Consistent(h, key, m) && Isomorphic(t, m, Order(t))
  {
    hide Linked, AllStatsOk, Written, Order, Entries, BucketsFrom, Loaded, UntriedLoaded, TriedLoaded, Isomorphic,
      TriedComes, BucketsCome, StartsWithNew, AllRead;
    ghost var good := Consistent(h, key0, t) && s == Written(key0, t);
    ghost var order: seq<nat> := [];
    ghost var src: Infos := map[];
    ghost var news, trieds: Stream := [], [];
    NothingOrderly();
    if good {
      order, src := Order(t), t.info;
      Prepared(h, key0, t);
      trieds := BucketsFrom(order, t.untried, 0);
      news := Entries(t.info, order[t.nNew..]) + trieds;
      assert s[..5] == Header(key0, t) && s[5..] == Entries(t.info, order[..t.nNew]) + news;
    }
    key, m := 0, EmptyTables(0, 0);
    if |s| < 5 || !s[0].Version? || !s[1].Key? || !s[2].Number? || !s[3].Number? || !s[4].Number? {
      return false, key, m;
    }
    key := s[1].k;
    var nNew, nTried, nBuckets := s[2].n, s[3].n, s[4].n;
    if nNew < 0 || nTried < 0 || nBuckets < 0 {
      return false, key, m;
    }
    var rest;
    ok, rest, m := ReadNew(h, key, s[5..], nNew, nTried, nBuckets != BUCKETS, src, order, news);
    if !ok {
      return;
    }
    if good {
      NewRead(h, key, rest, m, t, trieds);
    }
    m := m.(idCount := nNew);
    ok, rest, m := ReadTried(h, key, rest, m, t, trieds);
    if !ok {
      return;
    }
    if good {
      TriedRead(h, key, m, t);
    }
    ghost var m2 := m;
    ok, m := ReadBuckets(rest, m, nBuckets, if good then t else EmptyTables(0, 0), order);
    if good {
      BucketsRead(h, key, m2, m, t);
      ReadConsistent(h, key, t, m);
      ReadIsomorphic(h, key, t, m);
    }
  }

  /** Saving consistent tables and loading them again loses nothing. */
  method SaveAndLoad(h: Hasher, key: nat, t: Tables) returns (ok: bool, m: Tables)
    requires Consistent(h, key, t)
    ensures ok && Consistent(h, key, m) && Isomorphic(t, m, Order(t))
  {
    hide Linked, AllStatsOk, Isomorphic, Order, Written;
    var s := Serialize(h, key, t);
    var key';
    ok, key', m := Unserialize(h, s, key, t);
  }

  lemma NothingOrderly()
    ensures Orderly(map[], []) && EmptyTables(0, 0).info == map[]
  {
  }

  lemma Prepared(h: Hasher, key: nat, t: Tables)
    requires Linked(h, key, t, None)
    ensures Orderly(t.info, Order(t)) && 0 <= t.nNew <= |Order(t)| && t.nTried >= 0
    ensures Written(key, t) == Header(key, t) + (Entries(t.info, Order(t)[..t.nNew]) +
      (Entries(t.info, Order(t)[t.nNew..]) + BucketsFrom(Order(t), t.untried, 0)))
    ensures forall tail :: StartsWithNew(Entries(t.info, Order(t)[..t.nNew]) + tail, t.nNew, t.info, Order(t), tail)
    ensures |t.untried| == BUCKETS
  {
    hide RandomOk, AddrOk, TriedOk, NewBucketsOk, RefsOk, CountsOk, Order, Entries, BucketsFrom;
    OrderOrderly(h, key, t);
    WrittenParts(h, key, t);
    OrderLists(h, key, t);
    Shapes(h, key, t, None);
  }

  lemma NewRead(h: Hasher, key: nat, s: Stream, m: Tables, t: Tables, tail: Stream)
    requires Linked(h, key, t, None) && Orderly(t.info, Order(t)) && 0 <= t.nNew <= |Order(t)|
    requires s == Entries(t.info, Order(t)[t.nNew..]) + tail && Loaded(m, t.info, Order(t), t.nNew)
    requires m.tried == EmptyTables(0, 0).tried && m.nTried == t.nTried
    ensures TriedComes(h, key, s, m.(idCount := t.nNew), t, tail)
  {
    hide Order, Linked, Entries, InfosLoaded, AddrOk;
    OrderOrderly(h, key, t);
  }

  lemma TriedRead(h: Hasher, key: nat, m: Tables, t: Tables)
    requires Linked(h, key, t, None) && Orderly(t.info, Order(t)) && Loaded(m, t.info, Order(t), |Order(t)|)
    requires m.untried == EmptyTables(0, 0).untried
    ensures BucketsCome(BucketsFrom(Order(t), t.untried, 0), m, t, Order(t))
  {
    hide RandomOk, AddrOk, TriedOk, CountsOk, RefsOk, NewBucketsOk, UntriedLoaded, Loaded, Order, BucketsFrom, EmptyTables;
    OrderLists(h, key, t);
    Shapes(h, key, t, None);
    forall b: nat, n | b < BUCKETS && n in t.untried[b]
      ensures n in Order(t)
    {
      BucketListed(h, key, t, None, b);
    }
    NoBucketRead(m, t, Order(t));
  }

  lemma NoBucketRead(m: Tables, t: Tables, order: seq<nat>)
    requires Orderly(t.info, order) && Loaded(m, t.info, order, |order|) && |t.untried| == BUCKETS
    requires m.untried == EmptyTables(0, 0).untried
    ensures UntriedLoaded(m, t, order, 0, {})
  {
    hide AddrOk;
    forall x: nat | x < |order|
      ensures RefsSoFar(t.untried, order[x], 0, {}) == 0
    {
      assert HoldersBelow(t.untried, order[x], 0) == {};
    }
  }

  lemma BucketsRead(h: Hasher, key: nat, m: Tables, m': Tables, t: Tables)
    requires Linked(h, key, t, None) && Orderly(t.info, Order(t)) && 0 <= t.nNew <= |Order(t)|
    requires Loaded(m, t.info, Order(t), |Order(t)|)
    requires TriedLoaded(h, key, m.tried, t.info, Order(t), t.nNew, |Order(t)|)
    requires m.nTried == t.nTried && m.nNew == t.nNew && m.idCount == |Order(t)|
    requires UntriedLoaded(m', t, Order(t), BUCKETS, {}) && m' == m.(info := m'.info, untried := m'.untried)
    ensures AllRead(h, key, t, m')
  {
    hide Linked, Order, TriedLoaded, RefsSoFar;
    forall x: nat | x < |Order(t)|
      ensures m'.info[x].addr == m.info[x].addr
    {
    }
    assert AddrOk(m'.info, m'.addr);
  }
}
