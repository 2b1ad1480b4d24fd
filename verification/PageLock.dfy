/**
 LockedPageManagerBase: memory locks that stack, by one counter per page. Page size is a power of two,
 so masking an address with `~(page_size - 1)` rounds it down to a multiple of the page size.
 */
module PageLock {
  import opened Positional

  /** Addresses are below this (64-bit `size_t`). */
  const ADDRESS_SPACE: nat := 0x1_0000_0000_0000_0000

  datatype Range = Range(addr: nat, size: nat)

  ghost predicate IsPage(ps: nat, x: nat) {
    exists k: nat :: x == k * ps
  }

  /** Rounding an address down to its page. */
  function PageOf(ps: nat, addr: nat): (page: nat)
    requires ps > 0
    ensures page <= addr < page + ps && IsPage(ps, page)
  {
    var k := addr / ps;
    assert addr - addr % ps == k * ps;
    addr - addr % ps
  }

  lemma NextPage(ps: nat, x: nat)
    requires IsPage(ps, x)
    ensures IsPage(ps, x + ps)
  {
    var k: nat :| x == k * ps;
    assert x + ps == (k + 1) * ps;
  }

  /** No page starts strictly between two consecutive ones. */
  lemma NoneBetween(ps: nat, x: nat, y: nat)
    requires IsPage(ps, x) && IsPage(ps, y) && x < y
    ensures x + ps <= y
  {
    var a: nat :| x == a * ps;
    var b: nat :| y == b * ps;
    if b <= a {
      MulLe(b, a, ps, ps);
    } else {
      MulLe(a + 1, b, ps, ps);
      assert (a + 1) * ps == x + ps;
    }
  }

  /** A page is touched when it shares a byte with the range. */
  predicate Touches(ps: nat, r: Range, page: nat) {
    r.size > 0 && page < r.addr + r.size && r.addr < page + ps
  }

  ghost function PagesOf(ps: nat, r: Range): set<nat>
    requires ps > 0
  {
    set page | 0 <= page < r.addr + r.size && IsPage(ps, page) && Touches(ps, r, page)
  }

  /** The page after the last one of the range is still an address, so the page loop cannot wrap around. */
  predicate NoWrap(ps: nat, r: Range)
    requires ps > 0
  {
    r.size > 0 ==> PageOf(ps, r.addr + r.size - 1) + ps < ADDRESS_SPACE
  }

  type Histogram = map<nat, nat>

  function Count(h: Histogram, page: nat): nat {
    if page in h then h[page] else 0
  }

  ghost function Locked(ps: nat, h: Histogram, r: Range): (h': Histogram)
    requires ps > 0
    ensures Positive(h) ==> Positive(h')
    ensures forall page: nat :: Count(h', page) == Count(h, page) + if page in PagesOf(ps, r) then 1 else 0
  {
    map page | page in h.Keys + PagesOf(ps, r) :: Count(h, page) + if page in PagesOf(ps, r) then 1 else 0
  }

  ghost function Unlocked(ps: nat, h: Histogram, r: Range): (h': Histogram)
    requires ps > 0 && Positive(h) && PagesOf(ps, r) <= h.Keys
    ensures Positive(h')
    ensures forall page: nat :: Count(h', page) == Count(h, page) - if page in PagesOf(ps, r) then 1 else 0
  {
    map page | page in h && !(page in PagesOf(ps, r) && h[page] == 1) ::
      h[page] - if page in PagesOf(ps, r) then 1 else 0
  }

  /** No page is listed with a zero counter. */
  predicate Positive(h: Histogram) {
    forall page :: page in h ==> h[page] > 0
  }

  lemma SameCounts(a: Histogram, b: Histogram)
    requires Positive(a) && Positive(b) && forall page: nat :: Count(a, page) == Count(b, page)
    ensures a == b
  {
    forall page: nat
      ensures page in a <==> page in b
    {
      assert Count(a, page) == Count(b, page);
    }
    forall page | page in a
      ensures a[page] == b[page]
    {
      assert Count(a, page) == Count(b, page);
    }
  }

  lemma NoPages(ps: nat, r: Range)
    requires ps > 0 && r.size == 0
    ensures PagesOf(ps, r) == {}
  {
  }

  lemma NoneBelowStart(ps: nat, r: Range)
    requires ps > 0
    ensures forall x :: x in PagesOf(ps, r) ==> x >= PageOf(ps, r.addr)
  {
    forall x | x in PagesOf(ps, r) && x < PageOf(ps, r.addr)
      ensures false
    {
      NoneBetween(ps, x, PageOf(ps, r.addr));
    }
  }

  class Manager {
    const pageSize: nat
    var histogram: Histogram
    /** The pages the operating system holds locked; its locks do not stack. */
    var osLocked: set<nat>

    ghost predicate Valid()
      reads this
    {
      pageSize > 0 && Positive(histogram) && osLocked == histogram.Keys
    }

    constructor (pageSize: nat)
      requires pageSize > 0
      ensures Valid() && histogram == map[] && this.pageSize == pageSize
    {
      this.pageSize, histogram, osLocked := pageSize, map[], {};
    }

    method LockRange(r: Range)
      requires Valid() && NoWrap(pageSize, r)
      modifies this
      ensures Valid() && histogram == Locked(pageSize, old(histogram), r)
    {
      hide PagesOf, IsPage, PageOf, NoWrap, Locked, Unlocked;
      if r.size == 0 {
        NoPages(pageSize, r);
        SameCounts(histogram, Locked(pageSize, histogram, r));
        return;
      }
      var startPage, endPage := PageOf(pageSize, r.addr), PageOf(pageSize, r.addr + r.size - 1);
      var page := startPage;
      NoneBelowStart(pageSize, r);
      ghost var was := histogram;
      while page <= endPage
        invariant Valid() && startPage <= page && IsPage(pageSize, page)
        invariant forall x: nat :: Count(histogram, x) == Count(was, x) + if x in PagesOf(pageSize, r) && x < page then 1 else 0
        decreases endPage + pageSize - page
      {
        EachPageOnce(pageSize, r, page);
        NextPage(pageSize, page);
        if page !in histogram {
          osLocked := osLocked + {page};
          histogram := histogram[page := 1];
        } else {
          histogram := histogram[page := histogram[page] + 1];
        }
        page := page + pageSize;
      }
      AllBelowEnd(pageSize, r, page);
      SameCounts(histogram, Locked(pageSize, was, r));
    }

    /** The assert on the page counter holds because every page of the range is listed. */
    method UnlockRange(r: Range)
      requires Valid() && NoWrap(pageSize, r) && PagesOf(pageSize, r) <= histogram.Keys
      modifies this
      ensures Valid() && histogram == Unlocked(pageSize, old(histogram), r)
    {
      hide PagesOf, IsPage, PageOf, NoWrap, Locked, Unlocked;
      if r.size == 0 {
        NoPages(pageSize, r);
        SameCounts(histogram, Unlocked(pageSize, histogram, r));
        return;
      }
      var startPage, endPage := PageOf(pageSize, r.addr), PageOf(pageSize, r.addr + r.size - 1);
      var page := startPage;
      NoneBelowStart(pageSize, r);
      ghost var was := histogram;
      while page <= endPage
        invariant Valid() && startPage <= page && IsPage(pageSize, page)
        invariant forall x: nat :: Count(histogram, x) == Count(was, x) - if x in PagesOf(pageSize, r) && x < page then 1 else 0
        decreases endPage + pageSize - page
      {
        EachPageOnce(pageSize, r, page);
        NextPage(pageSize, page);
        assert Count(histogram, page) == Count(was, page) > 0;
        assert page in histogram;
        if histogram[page] - 1 == 0 {
          osLocked := osLocked - {page};
          histogram := histogram - {page};
        } else {
          histogram := histogram[page := histogram[page] - 1];
        }
        page := page + pageSize;
      }
      AllBelowEnd(pageSize, r, page);
      SameCounts(histogram, Unlocked(pageSize, was, r));
    }
  }

  /** The loop variable names a touched page, and its step skips none. */
  lemma EachPageOnce(ps: nat, r: Range, page: nat)
    requires ps > 0 && r.size > 0 && IsPage(ps, page)
    requires PageOf(ps, r.addr) <= page <= PageOf(ps, r.addr + r.size - 1)
    ensures page in PagesOf(ps, r)
    ensures forall x :: x in PagesOf(ps, r) ==> (x < page + ps <==> x < page || x == page)
  {
    forall x | x in PagesOf(ps, r) && x > page
      ensures x >= page + ps
    {
      NoneBetween(ps, page, x);
    }
  }

  lemma AllBelowEnd(ps: nat, r: Range, page: nat)
    requires ps > 0 && r.size > 0 && IsPage(ps, page) && page > PageOf(ps, r.addr + r.size - 1)
    ensures forall x :: x in PagesOf(ps, r) ==> x < page
  {
    var last := PageOf(ps, r.addr + r.size - 1);
    NoneBetween(ps, last, page);
  }

  // ---------------------------------------------------------------- whole histories

  datatype Op = Lock(r: Range) | Unlock(r: Range)

  /** How many of the live ranges touch `page`. */
  ghost function NumTouching(ps: nat, live: seq<Range>, page: nat): nat
    requires ps > 0
  {
    if live == [] then 0
    else NumTouching(ps, live[..|live| - 1], page) + if page in PagesOf(ps, live[|live| - 1]) then 1 else 0
  }

  ghost function RemoveOne(live: seq<Range>, r: Range): seq<Range>
    requires r in live
  {
    if live[|live| - 1] == r then live[..|live| - 1]
    else
      assert live == live[..|live| - 1] + [live[|live| - 1]];
      RemoveOne(live[..|live| - 1], r) + [live[|live| - 1]]
  }

  /** Every unlock releases a range that some earlier lock took and no unlock has released yet. */
  ghost predicate Matched(ops: seq<Op>)
    decreases |ops|, 0
  {
    ops == [] ||
    (Matched(ops[..|ops| - 1]) && (ops[|ops| - 1].Unlock? ==> ops[|ops| - 1].r in Live(ops[..|ops| - 1])))
  }

  ghost function Live(ops: seq<Op>): seq<Range>
    requires Matched(ops)
    decreases |ops|, 1
  {
    if ops == [] then []
    else
      match ops[|ops| - 1]
      case Lock(r) => Live(ops[..|ops| - 1]) + [r]
      case Unlock(r) => RemoveOne(Live(ops[..|ops| - 1]), r)
  }

  /** One call of the manager; an unlock only goes through when its assert holds on every page. */
  ghost predicate OpStep(ps: nat, g: Histogram, op: Op, h: Histogram)
    requires ps > 0
  {
    && Positive(g)
    && match op
       case Lock(r) => h == Locked(ps, g, r)
       case Unlock(r) => PagesOf(ps, r) <= g.Keys && h == Unlocked(ps, g, r)
  }

  /** `h` is the histogram that `ops` lead to, every assert on the way holding. */
  ghost predicate Reaches(ps: nat, ops: seq<Op>, h: Histogram)
    requires ps > 0
  {
    if ops == [] then h == map[]
    else
      var op := ops[|ops| - 1];
      exists g :: OpStep(ps, g, op, h) && Reaches(ps, ops[..|ops| - 1], g)
  }

  lemma {:induction false} RemoveOneCounts(ps: nat, live: seq<Range>, r: Range, page: nat)
    requires ps > 0 && r in live
    ensures NumTouching(ps, RemoveOne(live, r), page) ==
      NumTouching(ps, live, page) - if page in PagesOf(ps, r) then 1 else 0
  {
    if live[|live| - 1] != r {
      var init, last := live[..|live| - 1], live[|live| - 1];
      assert live == init + [last];
      RemoveOneCounts(ps, init, r, page);
      assert (RemoveOne(init, r) + [last])[..|RemoveOne(init, r)|] == RemoveOne(init, r);
    }
  }

  lemma {:induction false} LiveIsTouched(ps: nat, live: seq<Range>, r: Range, page: nat)
    requires ps > 0 && r in live && page in PagesOf(ps, r)
    ensures NumTouching(ps, live, page) > 0
  {
    if live[|live| - 1] != r {
      assert live == live[..|live| - 1] + [live[|live| - 1]];
      LiveIsTouched(ps, live[..|live| - 1], r, page);
    }
  }

  /**
   Any matched history without wrap-around, on a new manager: no assert fires, each counter ends as the number of live
   ranges touching its page, and the system holds exactly the touched pages locked.
   */
  method RunHistory(pageSize: nat, ops: seq<Op>) returns (m: Manager)
    requires pageSize > 0 && Matched(ops) && forall i :: 0 <= i < |ops| ==> NoWrap(pageSize, ops[i].r)
    ensures m.Valid() && m.pageSize == pageSize
    ensures forall page: nat :: Count(m.histogram, page) == NumTouching(pageSize, Live(ops), page)
    ensures forall page: nat :: page in m.osLocked <==> NumTouching(pageSize, Live(ops), page) > 0
  {
    hide PagesOf, NoWrap, Locked, Unlocked;
    m := new Manager(pageSize);
    assert ops[..|ops|] == ops;
    MatchedPrefix(ops, 0);
    for i := 0 to |ops|
      invariant fresh(m) && m.Valid() && m.pageSize == pageSize && Matched(ops[..i])
      invariant Counts(pageSize, m.histogram, Live(ops[..i]))
    {
      MatchedPrefix(ops, i + 1);
      assert ops[..i + 1][..i] == ops[..i];
      CountsStep(pageSize, m.histogram, ops[..i + 1]);
      match ops[i] {
        case Lock(r) => m.LockRange(r);
        case Unlock(r) => m.UnlockRange(r);
      }
    }
    forall page: nat
      ensures page in m.osLocked <==> NumTouching(pageSize, Live(ops), page) > 0
    {
      assert Count(m.histogram, page) == NumTouching(pageSize, Live(ops), page);
    }
  }

  ghost predicate Counts(ps: nat, h: Histogram, live: seq<Range>)
    requires ps > 0
  {
    forall page: nat :: Count(h, page) == NumTouching(ps, live, page)
  }

  lemma {:induction false} MatchedPrefix(ops: seq<Op>, k: nat)
    requires Matched(ops) && k <= |ops|
    ensures Matched(ops[..k])
  {
    if k < |ops| {
      MatchedPrefix(ops[..|ops| - 1], k);
      assert ops[..|ops| - 1][..k] == ops[..k];
    } else {
      assert ops[..k] == ops;
    }
  }

  /** One more call: its assert holds and the counters keep counting. */
  lemma CountsStep(ps: nat, g: Histogram, ops: seq<Op>)
    requires ps > 0 && ops != [] && Matched(ops) && Positive(g) && Counts(ps, g, Live(ops[..|ops| - 1]))
    ensures ops[|ops| - 1].Lock? ==> Counts(ps, Locked(ps, g, ops[|ops| - 1].r), Live(ops))
    ensures ops[|ops| - 1].Unlock? ==> PagesOf(ps, ops[|ops| - 1].r) <= g.Keys
    ensures ops[|ops| - 1].Unlock? ==> Counts(ps, Unlocked(ps, g, ops[|ops| - 1].r), Live(ops))
  {
    var init, op := ops[..|ops| - 1], ops[|ops| - 1];
    var r := op.r;
    if op.Lock? {
      assert Live(ops)[..|Live(init)|] == Live(init);
      forall page: nat
        ensures Count(Locked(ps, g, r), page) == NumTouching(ps, Live(ops), page)
      {
        assert Count(g, page) == NumTouching(ps, Live(init), page);
      }
    } else {
      forall page | page in PagesOf(ps, r)
        ensures page in g
      {
        LiveIsTouched(ps, Live(init), r, page);
        assert Count(g, page) == NumTouching(ps, Live(init), page);
      }
      forall page: nat
        ensures Count(Unlocked(ps, g, r), page) == NumTouching(ps, Live(ops), page)
      {
        RemoveOneCounts(ps, Live(init), r, page);
        assert Count(g, page) == NumTouching(ps, Live(init), page);
      }
    }
  }

  /**
   Over every matched history the page asserts hold, and in the end each counter is the number of live
   ranges touching its page, so exactly the touched pages are listed (and locked by the system).
   */
  lemma {:induction false} CountersCountLiveRanges(ps: nat, ops: seq<Op>) returns (h: Histogram)
    requires ps > 0 && Matched(ops)
    ensures Reaches(ps, ops, h) && Positive(h)
    ensures forall page: nat :: Count(h, page) == NumTouching(ps, Live(ops), page)
    ensures forall page: nat :: page in h <==> NumTouching(ps, Live(ops), page) > 0
  {
    if ops == [] {
      h := map[];
    } else {
      var init, op := ops[..|ops| - 1], ops[|ops| - 1];
      var g := CountersCountLiveRanges(ps, init);
      CountsStep(ps, g, ops);
      h := if op.Lock? then Locked(ps, g, op.r) else Unlocked(ps, g, op.r);
      assert OpStep(ps, g, op, h);
      forall page: nat
        ensures page in h <==> NumTouching(ps, Live(ops), page) > 0
      {
        assert Count(h, page) == NumTouching(ps, Live(ops), page);
      }
    }
  }
}
