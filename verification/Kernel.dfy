/**
 The stake modifier: GetLastStakeModifier, the selection intervals, SelectBlockFromCandidates and
 ComputeNextStakeModifier. The hash of proof-hash and previous modifier is an arbitrary function.
 */
module Kernel {
  import opened Wrappers
  import opened Sequences
  import opened Positional

  const MODIFIER_INTERVAL := 600
  const MODIFIER_INTERVAL_RATIO := 3

  datatype BlockIndex = BlockIndex(hash: nat, time: nat, proofHash: nat, stake: bool, entropy: bool,
                                   modifier: nat, generated: bool)

  /** The blocks from genesis to the previous block, as `pprev` links them. */
  type Chain = seq<BlockIndex>

  /** mapBlockIndex. */
  type BlockMap = map<nat, BlockIndex>

  /** A candidate as sorted: block time, then block hash. */
  datatype Candidate = Candidate(time: int, hash: nat)

  // ---------------------------------------------------------------- the last modifier

  /** The last block at or below `i` that generated a modifier, or genesis. */
  function LastGenerated(c: Chain, i: nat): (j: nat)
    requires i < |c|
    ensures j <= i && (j == 0 || c[j].generated)
    ensures forall k :: j < k <= i ==> !c[k].generated
  {
    if i > 0 && !c[i].generated then LastGenerated(c, i - 1) else i
  }

  /** GetLastStakeModifier; `None` when not even genesis generated one. */
  method GetLastStakeModifier(c: Chain) returns (r: Option<(nat, nat)>)
    requires c != []
    ensures r == var j := LastGenerated(c, |c| - 1);
      if c[j].generated then Some((c[j].modifier, c[j].time)) else None
  {
    var j := |c| - 1;
    while j > 0 && !c[j].generated
      invariant 0 <= j < |c| && LastGenerated(c, j) == LastGenerated(c, |c| - 1)
    {
      j := j - 1;
    }
    if !c[j].generated {
      return None;
    }
    return Some((c[j].modifier, c[j].time));
  }

  // ---------------------------------------------------------------- selection intervals

  function IntervalSection(section: nat): (n: nat)
    requires section < 64
  {
    MODIFIER_INTERVAL * 63 / (63 + (63 - section) * (MODIFIER_INTERVAL_RATIO - 1))
  }

  /** Sections grow from a third of the modifier interval to all of it. */
  lemma SectionsGrow(section: nat)
    requires section < 63
    ensures IntervalSection(section) <= IntervalSection(section + 1)
    ensures IntervalSection(0) == MODIFIER_INTERVAL / 3 && IntervalSection(63) == MODIFIER_INTERVAL
  {
    var d, e := 63 + (63 - section) * 2, 63 + (62 - section) * 2;
    var n := MODIFIER_INTERVAL * 63;
    SmallerDivisor(n, e, d);
  }

  lemma SmallerDivisor(n: nat, e: nat, d: nat)
    requires 0 < e <= d
    ensures n / d <= n / e
  {
    QuotientsCompared(e, d, n / d, n % d, n / e, n % e);
  }

  lemma QuotientsCompared(e: nat, d: nat, q: nat, r: nat, s: nat, t: nat)
    requires e <= d && t < e && q * d + r == s * e + t
    ensures q <= s
  {
    MulLe(q, q, e, d);
    if s < q {
      MulLe(s + 1, q, e, e);
    }
  }

  /** Sum of the first `k` sections. */
  function Sections(k: nat): nat
    requires k <= 64
  {
    if k == 0 then 0 else Sections(k - 1) + IntervalSection(k - 1)
  }

  /** GetStakeModifierSelectionInterval. */
  method SelectionInterval() returns (n: nat)
    ensures n == Sections(64)
  {
    n := 0;
    for section := 0 to 64
      invariant n == Sections(section)
    {
      n := n + IntervalSection(section);
    }
  }

  // ---------------------------------------------------------------- candidates

  /** Index of the first candidate: the walk back stops at the first block before `start`. */
  function FirstCandidate(c: Chain, start: int, i: nat): (j: nat)
    requires i <= |c|
    ensures j <= i && forall k :: j <= k < i ==> c[k].time >= start
    ensures j > 0 ==> c[j - 1].time < start
  {
    if i > 0 && c[i - 1].time >= start then FirstCandidate(c, start, i - 1) else i
  }

  function CandidateOf(b: BlockIndex): Candidate {
    Candidate(b.time, b.hash)
  }

  /** The candidates from block `j` of the chain on. */
  function Candidates(c: Chain, j: nat): (v: seq<Candidate>)
    requires j <= |c|
    ensures |v| == |c| - j && forall k :: 0 <= k < |v| ==> v[k] == CandidateOf(c[j + k])
  {
    seq(|c| - j, k requires 0 <= k < |c| - j => CandidateOf(c[j + k]))
  }

  method CollectCandidates(c: Chain, start: int) returns (v: seq<Candidate>)
    ensures var j := FirstCandidate(c, start, |c|);
      |v| == |c| - j && forall k :: 0 <= k < |v| ==> v[k] == CandidateOf(c[j + k])
  {
    v := [];
    var i := |c|;
    while i > 0 && c[i - 1].time >= start
      invariant 0 <= i <= |c| && FirstCandidate(c, start, i) == FirstCandidate(c, start, |c|)
      invariant |v| == |c| - i && forall k :: 0 <= k < |v| ==> v[k] == CandidateOf(c[|c| - 1 - k])
    {
      v := v + [CandidateOf(c[i - 1])];
      i := i - 1;
    }
    v := seq(|v|, k requires 0 <= k < |v| => v[|v| - 1 - k]);
  }

  predicate Below(a: Candidate, b: Candidate) {
    a.time < b.time || (a.time == b.time && a.hash <= b.hash)
  }

  predicate Sorted(v: seq<Candidate>) {
    forall i, j :: 0 <= i < j < |v| ==> Below(v[i], v[j])
  }

  method Insert(s: seq<Candidate>, x: Candidate) returns (s': seq<Candidate>)
    requires Sorted(s)
    ensures Sorted(s') && multiset(s') == multiset(s) + multiset{x}
  {
    var k := |s|;
    hide Sorted;
    while k > 0 && !Below(s[k - 1], x)
      invariant 0 <= k <= |s| && forall j :: k <= j < |s| ==> Below(x, s[j])
    {
      k := k - 1;
    }
    assert s == s[..k] + s[k..];
    s' := s[..k] + [x] + s[k..];
    InsertedSorted(s, k, x);
  }

  lemma InsertedSorted(s: seq<Candidate>, k: nat, x: Candidate)
    requires Sorted(s) && k <= |s| && (forall j :: k <= j < |s| ==> Below(x, s[j])) && (k > 0 ==> Below(s[k - 1], x))
    ensures Sorted(s[..k] + [x] + s[k..])
  {
    var r := s[..k] + [x] + s[k..];
    forall i, j | 0 <= i < j < |r|
      ensures Below(r[i], r[j])
    {
      if i < k {
        assert r[i] == s[i] && (i == k - 1 || Below(s[i], s[k - 1]));
      }
      if j > k {
        assert r[j] == s[j - 1];
      }
    }
  }

  /** The library sort on (time, hash) pairs. */
  method Sort(v: seq<Candidate>) returns (s: seq<Candidate>)
    ensures Sorted(s) && multiset(s) == multiset(v)
  {
    s := [];
    for i := 0 to |v|
      invariant Sorted(s) && multiset(s) == multiset(v[..i])
    {
      assert v[..i + 1] == v[..i] + [v[i]];
      s := Insert(s, v[i]);
    }
    assert v[..|v|] == v;
  }

  // ---------------------------------------------------------------- selecting one block

  type SelectHash = (nat, nat) -> nat

  /** Proof-of-stake blocks are favoured by 2^32. */
  function SelectionHash(h: SelectHash, b: BlockIndex, modifier: nat): nat {
    if b.stake then h(b.proofHash, modifier) / 0x1_0000_0000 else h(b.proofHash, modifier)
  }

  /** Every candidate is a block of the map with the time it was sorted by. */
  ghost predicate Known(v: seq<Candidate>, m: BlockMap) {
    forall i :: 0 <= i < |v| ==> v[i].hash in m && m[v[i].hash].hash == v[i].hash && m[v[i].hash].time == v[i].time
  }

  /** Candidate `i` may be chosen within the interval. */
  predicate Eligible(v: seq<Candidate>, selected: set<nat>, stop: int, i: nat)
    requires i < |v|
  {
    v[i].hash !in selected && v[i].time <= stop
  }

  /**
   The rule of one round: the least selection hash among unselected blocks up to the interval stop (the
   earlier one on a tie) or, if there is none, the first unselected block in (time, hash) order.
   */
  ghost predicate IsPick(h: SelectHash, v: seq<Candidate>, m: BlockMap, selected: set<nat>, stop: int, modifier: nat, i: nat)
    requires Known(v, m) && i < |v|
  {
    && v[i].hash !in selected
    && (if exists j :: 0 <= j < |v| && Eligible(v, selected, stop, j)
        then
          && v[i].time <= stop
          && forall j :: 0 <= j < |v| && Eligible(v, selected, stop, j) ==>
               SelectionHash(h, m[v[i].hash], modifier) <= SelectionHash(h, m[v[j].hash], modifier) &&
               (j < i ==> SelectionHash(h, m[v[i].hash], modifier) < SelectionHash(h, m[v[j].hash], modifier))
        else
          forall j :: 0 <= j < i ==> v[j].hash in selected)
  }

  /** The rule determines the pick. */
  lemma PickUnique(h: SelectHash, v: seq<Candidate>, m: BlockMap, selected: set<nat>, stop: int, modifier: nat, i: nat, k: nat)
    requires Known(v, m) && i < |v| && k < |v|
    requires IsPick(h, v, m, selected, stop, modifier, i) && IsPick(h, v, m, selected, stop, modifier, k)
    ensures i == k
  {
    if exists j :: 0 <= j < |v| && Eligible(v, selected, stop, j) {
      assert Eligible(v, selected, stop, i) && Eligible(v, selected, stop, k);
    }
  }

  /**
   What the rule means for the raw hashes of the picked block `i` and another eligible block `j`: within a kind the
   hash is the least (for proof of stake up to the 32 low bits), and proof of stake is favoured by 2^32.
   */
  lemma PickFavoursStake(h: SelectHash, v: seq<Candidate>, m: BlockMap, selected: set<nat>, stop: int, modifier: nat,
                         i: nat, j: nat)
    requires Known(v, m) && i < |v| && j < |v| && IsPick(h, v, m, selected, stop, modifier, i)
    requires v[j].hash !in selected && v[j].time <= stop
    ensures v[i].hash !in selected && v[i].time <= stop
    ensures var a, b := m[v[i].hash], m[v[j].hash];
      var x, y := h(a.proofHash, modifier), h(b.proofHash, modifier);
      && (!a.stake && !b.stake ==> x <= y)
      && (!a.stake && b.stake ==> x * 0x1_0000_0000 <= y)
      && (a.stake && !b.stake ==> x < (y + 1) * 0x1_0000_0000)
      && (a.stake && b.stake ==> x / 0x1_0000_0000 <= y / 0x1_0000_0000)
  {
    assert Eligible(v, selected, stop, j);
    var a, b := m[v[i].hash], m[v[j].hash];
    assert SelectionHash(h, a, modifier) <= SelectionHash(h, b, modifier);
  }

  /** When no unselected block is early enough, the pick is the earliest unselected one, by hash among equals. */
  lemma PickWithoutEligible(h: SelectHash, v: seq<Candidate>, m: BlockMap, selected: set<nat>, stop: int, modifier: nat,
                            i: nat, j: nat)
    requires Known(v, m) && Sorted(v) && i < |v| && j < |v| && IsPick(h, v, m, selected, stop, modifier, i)
    requires forall k :: 0 <= k < |v| && v[k].hash !in selected ==> v[k].time > stop
    requires v[j].hash !in selected
    ensures v[i].hash !in selected
    ensures v[i].time < v[j].time || (v[i].time == v[j].time && v[i].hash <= v[j].hash)
  {
    assert forall k :: 0 <= k < |v| ==> !Eligible(v, selected, stop, k);
    if i < j {
      assert Below(v[i], v[j]);
    }
  }

  /** What the scan knows after candidates `0..n`: `best` is the pick among them. */
  ghost predicate ScanInv(h: SelectHash, v: seq<Candidate>, m: BlockMap, selected: set<nat>, stop: int, modifier: nat, n: nat, best: Option<nat>)
    requires Known(v, m) && n <= |v|
  {
    match best
    case None => forall j :: 0 <= j < n ==> v[j].hash in selected
    case Some(i) =>
      && i < n && v[i].hash !in selected
      && (v[i].time > stop ==> forall j :: 0 <= j < i ==> v[j].hash in selected)
      && (v[i].time <= stop ==>
            forall j :: 0 <= j < n && Eligible(v, selected, stop, j) ==>
              SelectionHash(h, m[v[i].hash], modifier) <= SelectionHash(h, m[v[j].hash], modifier) &&
              (j < i ==> SelectionHash(h, m[v[i].hash], modifier) < SelectionHash(h, m[v[j].hash], modifier)))
  }

  /** A finished or stopped scan has the pick of the whole list. */
  lemma ScanDone(h: SelectHash, v: seq<Candidate>, m: BlockMap, selected: set<nat>, stop: int, modifier: nat, n: nat, i: nat)
    requires Known(v, m) && n <= |v| && Sorted(v)
    requires ScanInv(h, v, m, selected, stop, modifier, n, Some(i))
    requires n == |v| || v[n].time > stop
    ensures i < |v| && IsPick(h, v, m, selected, stop, modifier, i)
  {
    assert forall j :: n < j < |v| ==> Below(v[n], v[j]);
    if v[i].time > stop {
      assert forall j :: i < j < |v| ==> Below(v[i], v[j]);
    } else {
      assert Eligible(v, selected, stop, i);
    }
  }

  /** SelectBlockFromCandidates; `None` when nothing is left or a candidate is not in the block map. */
  method SelectBlock(h: SelectHash, v: seq<Candidate>, m: BlockMap, selected: set<nat>, stop: int, modifier: nat)
    returns (pick: Option<BlockIndex>, ghost at: nat)
    requires Sorted(v)
    ensures Known(v, m) ==> (pick.None? <==> forall j :: 0 <= j < |v| ==> v[j].hash in selected)
    ensures Known(v, m) && pick.Some? ==>
      at < |v| && pick.value == m[v[at].hash] && IsPick(h, v, m, selected, stop, modifier, at)
  {
    pick, at := None, 0;
    var hashBest := 0;
    ghost var best: Option<nat>, known := None, Known(v, m);
    for n := 0 to |v|
      invariant known ==> ScanInv(h, v, m, selected, stop, modifier, n, best)
      invariant known ==> (pick.Some? <==> best.Some?)
      invariant known && best.Some? ==>
        pick.value == m[v[best.value].hash] && hashBest == SelectionHash(h, pick.value, modifier)
      invariant known && best.Some? && n > 0 && v[best.value].time > stop ==> best.value == n - 1
    {
      if v[n].hash !in m {
        return None, 0;
      }
      var b := m[v[n].hash];
      if pick.Some? && b.time > stop {
        if known {
          ScanDone(h, v, m, selected, stop, modifier, n, best.value);
          at := best.value;
        }
        return pick, at;
      }
      if b.hash in selected {
        continue;
      }
      var hash := SelectionHash(h, b, modifier);
      if pick.Some? && hash < hashBest {
        hashBest, pick, best := hash, Some(b), Some(n);
      } else if pick.None? {
        hashBest, pick, best := hash, Some(b), Some(n);
      }
    }
    if known && best.Some? {
      ScanDone(h, v, m, selected, stop, modifier, |v|, best.value);
      at := best.value;
    }
  }

  // ---------------------------------------------------------------- bits

  function Bit(m: nat, k: nat): nat {
    m / Pow(2, k) % 2
  }

  /** `m | (bit << r)`. */
  function OrBit(m: nat, r: nat, bit: bool): nat {
    if bit && Bit(m, r) == 0 then m + Pow(2, r) else m
  }

  /** Setting the next higher bit leaves the lower ones alone. */
  lemma OrNextBit(m: nat, r: nat, bit: bool)
    requires m < Pow(2, r)
    ensures OrBit(m, r, bit) < Pow(2, r + 1)
    ensures Bit(OrBit(m, r, bit), r) == if bit then 1 else 0
    ensures forall k :: 0 <= k < r ==> Bit(OrBit(m, r, bit), k) == Bit(m, k)
  {
    var p := Pow(2, r);
    DivMod(0, p, m);
    assert Bit(m, r) == 0;
    if bit {
      DivMod(1, p, m);
      forall k | 0 <= k < r
        ensures Bit(m + p, k) == Bit(m, k)
      {
        LowerBit(m, r, k);
      }
    }
  }

  lemma LowerBit(m: nat, r: nat, k: nat)
    requires k < r
    ensures Bit(m + Pow(2, r), k) == Bit(m, k)
  {
    hide Pow;
    var p, q := Pow(2, k), Pow(2, r - k - 1);
    PowAdd(2, k, r - k);
    PowAdd(2, 1, r - k - 1);
    assert Pow(2, 1) == 2 by {
      TwoToOne();
    }
    var a, b := m / p, m % p;
    assert m == a * p + b;
    assert m + Pow(2, r) == (a + 2 * q) * p + b;
    DivMod(a + 2 * q, p, b);
  }

  lemma TwoToOne()
    ensures Pow(2, 1) == 2
  {
  }

  // ---------------------------------------------------------------- the whole computation

  /** Blocks of the chain have distinct hashes and are all in the block map. */
  ghost predicate InMap(c: Chain, m: BlockMap) {
    && (forall i :: 0 <= i < |c| ==> c[i].hash in m && m[c[i].hash] == c[i])
    && (forall i, j :: 0 <= i < j < |c| ==> c[i].hash != c[j].hash)
  }

  /** The hashes picked in the first `r` rounds. */
  function Picked(v: seq<Candidate>, picks: seq<nat>): set<nat>
    requires InRange(v, picks)
  {
    set k | 0 <= k < |picks| :: v[picks[k]].hash
  }

  predicate InRange(v: seq<Candidate>, picks: seq<nat>) {
    forall k :: 0 <= k < |picks| ==> picks[k] < |v|
  }

  /** Round `r` obeyed the rule, given the earlier picks and its own interval stop. */
  ghost predicate RoundOk(h: SelectHash, v: seq<Candidate>, m: BlockMap, start: int, modifier: nat, picks: seq<nat>, r: nat)
    requires Known(v, m) && InRange(v, picks) && r < |picks| <= 64
  {
    IsPick(h, v, m, Picked(v, picks[..r]), start + Sections(r + 1), modifier, picks[r])
  }

  /** The selection rounds: each pick obeys the rule. */
  ghost predicate Rounds(h: SelectHash, v: seq<Candidate>, m: BlockMap, start: int, modifier: nat, picks: seq<nat>)
    requires Known(v, m)
  {
    && |picks| <= 64 && InRange(v, picks)
    && forall r :: 0 <= r < |picks| ==> RoundOk(h, v, m, start, modifier, picks, r)
  }

  /** The bits of the new modifier are the entropy bits of the picks, in order of selection. */
  ghost predicate BitsOf(v: seq<Candidate>, m: BlockMap, picks: seq<nat>, modifier: nat)
    requires Known(v, m) && InRange(v, picks)
  {
    && modifier < Pow(2, |picks|)
    && forall r :: 0 <= r < |picks| ==> Bit(modifier, r) == if m[v[picks[r]].hash].entropy then 1 else 0
  }

  ghost predicate DistinctHashes(v: seq<Candidate>) {
    forall i, j :: 0 <= i < j < |v| ==> v[i].hash != v[j].hash
  }

  lemma {:induction false} PickedSize(v: seq<Candidate>, picks: seq<nat>)
    requires InRange(v, picks)
    ensures |Picked(v, picks)| <= |picks|
  {
    if picks == [] {
      assert Picked(v, picks) == {};
    } else {
      var init, last := picks[..|picks| - 1], v[picks[|picks| - 1]].hash;
      PickedSize(v, init);
      assert Picked(v, picks) == Picked(v, init) + {last};
    }
  }

  function Hashes(v: seq<Candidate>): set<nat> {
    set i | 0 <= i < |v| :: v[i].hash
  }

  lemma HashesSize(v: seq<Candidate>)
    requires DistinctHashes(v)
    ensures |Hashes(v)| >= |v|
  {
    DistinctFitIn(seq(|v|, i requires 0 <= i < |v| => v[i].hash), Hashes(v));
  }

  /** Before every candidate was picked, one is left. */
  lemma OneLeft(v: seq<Candidate>, picks: seq<nat>)
    requires DistinctHashes(v) && |picks| < |v| && InRange(v, picks)
    ensures exists j :: 0 <= j < |v| && v[j].hash !in Picked(v, picks)
  {
    PickedSize(v, picks);
    HashesSize(v);
    if forall j :: 0 <= j < |v| ==> v[j].hash in Picked(v, picks) {
      assert Hashes(v) <= Picked(v, picks);
      CardinalitySubset(Hashes(v), Picked(v, picks));
    }
  }

  /** No block is picked twice. */
  lemma PicksDistinct(h: SelectHash, v: seq<Candidate>, m: BlockMap, start: int, modifier: nat, picks: seq<nat>)
    requires Known(v, m) && Rounds(h, v, m, start, modifier, picks)
    ensures forall q, r :: 0 <= q < r < |picks| ==> v[picks[q]].hash != v[picks[r]].hash
  {
    forall q, r | 0 <= q < r < |picks|
      ensures v[picks[q]].hash != v[picks[r]].hash
    {
      assert RoundOk(h, v, m, start, modifier, picks, r);
      assert picks[..r][q] == picks[q];
      assert v[picks[q]].hash in Picked(v, picks[..r]);
    }
  }

  /** The selection loop of ComputeNextStakeModifier. */
  method SelectRounds(h: SelectHash, v: seq<Candidate>, m: BlockMap, start: int, modifier: nat)
    returns (ok: bool, modifierNew: nat, ghost picks: seq<nat>)
    requires Sorted(v) && Known(v, m) && DistinctHashes(v)
    ensures ok
    ensures |picks| == if |v| < 64 then |v| else 64
    ensures Rounds(h, v, m, start, modifier, picks) && BitsOf(v, m, picks, modifierNew)
  {
    hide IsPick, Bit, OrBit, BitsOf, Rounds, Picked;
    modifierNew, picks := 0, [];
    NoRounds(h, v, m, start, modifier);
    var stop := start;
    var selected: set<nat> := {};
    var rounds := if |v| < 64 then |v| else 64;
    for r := 0 to rounds
      invariant |picks| == r && InRange(v, picks) && Rounds(h, v, m, start, modifier, picks)
      invariant stop == start + Sections(r) && selected == Picked(v, picks)
      invariant BitsOf(v, m, picks, modifierNew)
    {
      stop := stop + IntervalSection(r);
      OneLeft(v, picks);
      var pick;
      ghost var at;
      pick, at := SelectBlock(h, v, m, selected, stop, modifier);
      BitsNext(v, m, picks, at, modifierNew);
      NextRound(h, v, m, start, modifier, picks, at);
      PickedAppend(v, picks, at);
      modifierNew := OrBit(modifierNew, r, pick.value.entropy);
      selected := selected + {pick.value.hash};
      picks := picks + [at];
    }
    ok := true;
  }

  lemma NoRounds(h: SelectHash, v: seq<Candidate>, m: BlockMap, start: int, modifier: nat)
    requires Known(v, m)
    ensures Rounds(h, v, m, start, modifier, []) && BitsOf(v, m, [], 0) && Picked(v, []) == {}
  {
  }

  lemma BitsNext(v: seq<Candidate>, m: BlockMap, picks: seq<nat>, at: nat, bits: nat)
    requires Known(v, m) && InRange(v, picks) && BitsOf(v, m, picks, bits) && at < |v|
    ensures InRange(v, picks + [at]) && BitsOf(v, m, picks + [at], OrBit(bits, |picks|, m[v[at].hash].entropy))
  {
    hide Bit, OrBit;
    OrNextBit(bits, |picks|, m[v[at].hash].entropy);
  }

  lemma PickedAppend(v: seq<Candidate>, picks: seq<nat>, at: nat)
    requires at < |v| && InRange(v, picks)
    ensures Picked(v, picks + [at]) == Picked(v, picks) + {v[at].hash}
  {
    var next := picks + [at];
    assert forall k :: 0 <= k < |picks| ==> next[k] == picks[k];
    assert next[|picks|] == at;
  }

  lemma RoundStays(h: SelectHash, v: seq<Candidate>, m: BlockMap, start: int, modifier: nat, picks: seq<nat>, at: nat, r: nat)
    requires Known(v, m) && InRange(v, picks) && r < |picks| < 64 && at < |v|
    requires RoundOk(h, v, m, start, modifier, picks, r)
    ensures InRange(v, picks + [at]) && RoundOk(h, v, m, start, modifier, picks + [at], r)
  {
    hide IsPick;
    assert (picks + [at])[..r] == picks[..r];
  }

  lemma NextRound(h: SelectHash, v: seq<Candidate>, m: BlockMap, start: int, modifier: nat, picks: seq<nat>, at: nat)
    requires Known(v, m) && Rounds(h, v, m, start, modifier, picks) && |picks| < 64 && at < |v|
    requires IsPick(h, v, m, Picked(v, picks), start + Sections(|picks| + 1), modifier, at)
    ensures Rounds(h, v, m, start, modifier, picks + [at])
  {
    hide IsPick, RoundOk;
    var next := picks + [at];
    forall r | 0 <= r < |next|
      ensures RoundOk(h, v, m, start, modifier, next, r)
    {
      if r < |picks| {
        RoundStays(h, v, m, start, modifier, picks, at, r);
      } else {
        LastRound(h, v, m, start, modifier, picks, at);
      }
    }
  }

  lemma LastRound(h: SelectHash, v: seq<Candidate>, m: BlockMap, start: int, modifier: nat, picks: seq<nat>, at: nat)
    requires Known(v, m) && InRange(v, picks) && |picks| < 64 && at < |v|
    requires IsPick(h, v, m, Picked(v, picks), start + Sections(|picks| + 1), modifier, at)
    ensures InRange(v, picks + [at]) && RoundOk(h, v, m, start, modifier, picks + [at], |picks|)
  {
    hide IsPick, Picked, Sections, Known;
    var next := picks + [at];
    assert next[..|picks|] == picks && next[|picks|] == at;
    assert IsPick(h, v, m, Picked(v, next[..|picks|]), start + Sections(|picks| + 1), modifier, next[|picks|]);
  }

  /** Sorting keeps what the selection needs of the candidates. */
  lemma SortedCandidates(c: Chain, m: BlockMap, j: nat, v: seq<Candidate>, s: seq<Candidate>)
    requires InMap(c, m) && j <= |c| && |v| == |c| - j && (forall k :: 0 <= k < |v| ==> v[k] == CandidateOf(c[j + k]))
    requires multiset(s) == multiset(v)
    ensures |s| == |v| && Known(s, m) && DistinctHashes(s)
  {
    assert |multiset(s)| == |s| && |multiset(v)| == |v|;
    forall i | 0 <= i < |s|
      ensures s[i].hash in m && m[s[i].hash].hash == s[i].hash && m[s[i].hash].time == s[i].time
    {
      assert s[i] in multiset(v);
      var k :| 0 <= k < |v| && v[k] == s[i];
    }
    forall i, l | 0 <= i < l < |s|
      ensures s[i].hash != s[l].hash
    {
      if s[i].hash == s[l].hash {
        assert s[i] in multiset(v) && s[l] in multiset(v);
        var a :| 0 <= a < |v| && v[a] == s[i];
        var b :| 0 <= b < |v| && v[b] == s[l];
        assert a == b;
        TwiceInSeq(s, i, l);
        OnceInSeq(v, a);
      }
    }
  }

  lemma TwiceInSeq(s: seq<Candidate>, i: nat, l: nat)
    requires i < l < |s| && s[i] == s[l]
    ensures multiset(s)[s[i]] >= 2
  {
    assert s == s[..i] + [s[i]] + s[i + 1..l] + [s[l]] + s[l + 1..];
  }

  lemma OnceInSeq(v: seq<Candidate>, a: nat)
    requires a < |v| && forall k :: 0 <= k < |v| && k != a ==> v[k] != v[a]
    ensures multiset(v)[v[a]] == 1
  {
    assert v == v[..a] + [v[a]] + v[a + 1..];
    assert v[a] !in v[..a] && v[a] !in v[a + 1..];
  }

  /** Where the selection starts for a chain. */
  function SelectionStart(c: Chain): int
    requires c != []
  {
    c[|c| - 1].time / MODIFIER_INTERVAL * MODIFIER_INTERVAL - Sections(64)
  }

  /**
   ComputeNextStakeModifier. Genesis gets modifier 0; within one interval the last modifier is kept;
   otherwise min(64, n) rounds over the n candidates determine the new one, and no round can fail.
   */
  method ComputeNextStakeModifier(h: SelectHash, c: Chain, m: BlockMap)
    returns (ok: bool, modifier: nat, generated: bool, ghost sorted: seq<Candidate>, ghost picks: seq<nat>)
    requires InMap(c, m)
    ensures c == [] ==> ok && modifier == 0 && generated
    ensures c != [] ==> (ok <==> c[LastGenerated(c, |c| - 1)].generated)
    ensures c != [] && ok ==> var last := c[LastGenerated(c, |c| - 1)];
      && (generated <==> last.time / MODIFIER_INTERVAL < c[|c| - 1].time / MODIFIER_INTERVAL)
      && (!generated ==> modifier == last.modifier)
      && (generated ==>
            var n := |c| - FirstCandidate(c, SelectionStart(c), |c|);
            && |sorted| == n && Sorted(sorted) && Known(sorted, m)
            && multiset(sorted) == multiset(Candidates(c, |c| - n))
            && |picks| == (if n < 64 then n else 64)
            && Rounds(h, sorted, m, SelectionStart(c), last.modifier, picks)
            && BitsOf(sorted, m, picks, modifier))
  {
    hide IsPick, Sections, FirstCandidate, LastGenerated, BitsOf, Rounds, Known, Sorted, DistinctHashes;
    sorted, picks := [], [];
    if c == [] {
      return true, 0, true, sorted, picks;
    }
    var last := GetLastStakeModifier(c);
    if last.None? {
      return false, 0, false, sorted, picks;
    }
    var prev, lastTime := last.value.0, last.value.1;
    var blockTime := c[|c| - 1].time;
    if lastTime / MODIFIER_INTERVAL >= blockTime / MODIFIER_INTERVAL {
      return true, prev, false, sorted, picks;
    }
    var interval := SelectionInterval();
    var start := blockTime / MODIFIER_INTERVAL * MODIFIER_INTERVAL - interval;
    var v := CollectCandidates(c, start);
    var s := Sort(v);
    sorted := s;
    SortedCandidates(c, m, FirstCandidate(c, start, |c|), v, s);
    assert v == Candidates(c, FirstCandidate(c, start, |c|));
    ok, modifier, picks := SelectRounds(h, s, m, start, prev);
    generated := true;
  }

  // ---------------------------------------------------------------- the modifier is determined

  /** The rounds determine the picks: two lists that obey the rule agree as far as both go. */
  lemma {:induction false} RoundsUnique(h: SelectHash, v: seq<Candidate>, m: BlockMap, start: int, modifier: nat,
                                        p: seq<nat>, q: seq<nat>, k: nat)
    requires Known(v, m) && Rounds(h, v, m, start, modifier, p) && Rounds(h, v, m, start, modifier, q)
    requires k <= |p| && k <= |q|
    ensures p[..k] == q[..k]
  {
    hide IsPick, Sections, Picked;
    if k > 0 {
      RoundsUnique(h, v, m, start, modifier, p, q, k - 1);
      assert RoundOk(h, v, m, start, modifier, p, k - 1) && RoundOk(h, v, m, start, modifier, q, k - 1);
      PickUnique(h, v, m, Picked(v, p[..k - 1]), start + Sections(k), modifier, p[k - 1], q[k - 1]);
      assert p[..k] == p[..k - 1] + [p[k - 1]] && q[..k] == q[..k - 1] + [q[k - 1]];
    }
  }

  /** A number below 2^n is its bits. */
  lemma {:induction false} BitsUnique(a: nat, b: nat, n: nat)
    requires a < Pow(2, n) && b < Pow(2, n) && forall r :: 0 <= r < n ==> Bit(a, r) == Bit(b, r)
    ensures a == b
  {
    hide Bit;
    if n > 0 {
      var top: nat := n - 1;
      var x := TopBitOff(a, top);
      var y := TopBitOff(b, top);
      assert Bit(a, top) == Bit(b, top);
      forall r | 0 <= r < top
        ensures Bit(x, r) == Bit(y, r)
      {
        assert Bit(a, r) == Bit(b, r);
      }
      BitsUnique(x, y, top);
    }
  }

  lemma TopBitOff(a: nat, n: nat) returns (x: nat)
    requires a < Pow(2, n + 1)
    ensures x < Pow(2, n) && a == x + Bit(a, n) * Pow(2, n)
    ensures forall r :: 0 <= r < n ==> Bit(x, r) == Bit(a, r)
  {
    var p := Pow(2, n);
    if a < p {
      x := a;
      DivMod(0, p, a);
    } else {
      x := a - p;
      DivMod(1, p, x);
      assert a / p == 1;
      forall r | 0 <= r < n
        ensures Bit(x, r) == Bit(a, r)
      {
        LowerBit(x, n, r);
      }
    }
  }

  lemma SameSize(s: seq<Candidate>, t: seq<Candidate>)
    requires multiset(s) == multiset(t)
    ensures |s| == |t|
  {
    assert |multiset(s)| == |s| && |multiset(t)| == |t|;
  }

  lemma LastsAgree(s: seq<Candidate>, t: seq<Candidate>)
    requires Sorted(s) && Sorted(t) && multiset(s) == multiset(t) && s != [] && t != []
    ensures s[|s| - 1] == t[|t| - 1] && multiset(s[..|s| - 1]) == multiset(t[..|t| - 1])
    ensures Sorted(s[..|s| - 1]) && Sorted(t[..|t| - 1])
  {
    hide Sorted, Below;
    LastInside(s);
    LastInside(t);
    LastIsGreatest(s, t[|t| - 1]);
    LastIsGreatest(t, s[|s| - 1]);
    BelowBoth(s[|s| - 1], t[|t| - 1]);
  }

  /** There is one sorted order of the candidates. */
  lemma {:induction false} SortedUnique(s: seq<Candidate>, t: seq<Candidate>)
    requires Sorted(s) && Sorted(t) && multiset(s) == multiset(t)
    ensures s == t
  {
    hide Sorted;
    SameSize(s, t);
    if s != [] {
      LastsAgree(s, t);
      SortedUnique(s[..|s| - 1], t[..|t| - 1]);
      assert s == s[..|s| - 1] + [s[|s| - 1]] && t == t[..|t| - 1] + [t[|t| - 1]];
    }
  }

  lemma BelowBoth(x: Candidate, y: Candidate)
    requires Below(x, y) && Below(y, x)
    ensures x == y
  {
  }

  lemma LastInside(s: seq<Candidate>)
    requires Sorted(s) && s != []
    ensures Sorted(s[..|s| - 1]) && s[|s| - 1] in multiset(s)
    ensures multiset(s[..|s| - 1]) == multiset(s) - multiset{s[|s| - 1]}
  {
    assert s == s[..|s| - 1] + [s[|s| - 1]];
  }

  lemma LastIsGreatest(s: seq<Candidate>, x: Candidate)
    requires Sorted(s) && s != [] && x in multiset(s)
    ensures Below(x, s[|s| - 1])
  {
    var i :| 0 <= i < |s| && s[i] == x;
    if i < |s| - 1 {
      assert Below(s[i], s[|s| - 1]);
    }
  }

  /**
   The chain determines the modifier: any two sorted candidate lists, pick lists and modifiers that meet the contract of
   ComputeNextStakeModifier are the same.
   */
  lemma ModifierDetermined(h: SelectHash, m: BlockMap, start: int, modifier: nat, s: seq<Candidate>, t: seq<Candidate>,
                           p: seq<nat>, q: seq<nat>, a: nat, b: nat)
    requires Sorted(s) && Sorted(t) && multiset(s) == multiset(t) && Known(s, m) && Known(t, m) && |p| == |q|
    requires Rounds(h, s, m, start, modifier, p) && BitsOf(s, m, p, a)
    requires Rounds(h, t, m, start, modifier, q) && BitsOf(t, m, q, b)
    ensures s == t && p == q && a == b
  {
    hide Rounds, Sorted, Bit;
    SortedUnique(s, t);
    RoundsUnique(h, s, m, start, modifier, p, q, |p|);
    assert p[..|p|] == p && q[..|q|] == q;
    BitsUnique(a, b, |p|);
  }
}
