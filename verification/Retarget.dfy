/**
 GetNextTargetRequired: the compact difficulty target of the next block from the spacing of the last
 two blocks of its kind, over chains whose every block carries the target its predecessors require.
 */
module Retarget {
  import opened Positional
  import opened Compact

  const TARGET_SPACING := 28
  const INTERVAL := 10

  /** `~uint256(0) >> 12` and `~uint256(0) >> 20`. */
  const WORK_LIMIT: nat := 0xFFFFFFFFFFFFF_FFFFFFFFFFFFFFFF_FFFFFFFFFFFFFFFF_FFFFFFFFFFFFFFFF
  const STAKE_LIMIT: nat := 0xFFFFFFFFFFF_FFFFFFFFFFFFFFFF_FFFFFFFFFFFFFFFF_FFFFFFFFFFFFFFFF

  function LimitOf(stake: bool): nat {
    if stake then STAKE_LIMIT else WORK_LIMIT
  }

  lemma LimitFacts(stake: bool)
    ensures 1000 <= LimitOf(stake) < UINT256 && Size(LimitOf(stake)) < 256
  {
    hide Pow, Size;
    var v := LimitOf(stake);
    SizeRange(v);
    Power32();
    if Size(v) >= 256 {
      PowMonotoneExp(256, 32, Size(v) - 2);
    }
  }

  lemma Power32()
    ensures Pow(256, 32) == UINT256
  {
    hide Pow;
    assert Pow(256, 2) == 65536 by {
      SmallPower();
    }
    PowAdd(256, 2, 2);
    PowAdd(256, 4, 4);
    PowAdd(256, 8, 8);
    PowAdd(256, 16, 16);
  }

  lemma SmallPower()
    ensures Pow(256, 2) == 65536
  {
  }

  datatype BlockIndex = BlockIndex(time: nat, bits: nat, stake: bool)

  /** The blocks from genesis up, as `pprev` links them. */
  type Chain = seq<BlockIndex>

  /** CBigNum division truncates towards zero. */
  function TruncDiv(n: int, d: nat): int
    requires d > 0
  {
    if n < 0 then -((-n) / d) else n / d
  }

  function EffectiveSpacing(spacing: int, stake: bool): int {
    if spacing < 0 then TARGET_SPACING
    else if stake && spacing > TARGET_SPACING * 10 then TARGET_SPACING * 10
    else spacing
  }

  /** One retargeting step from target `was`. */
  function NextTarget(was: int, spacing: int, stake: bool): (t: nat)
    ensures t <= LimitOf(stake)
  {
    var n := was * ((INTERVAL - 1) * TARGET_SPACING + 2 * EffectiveSpacing(spacing, stake));
    var t := TruncDiv(n, (INTERVAL + 1) * TARGET_SPACING);
    if t <= 0 || t > LimitOf(stake) then LimitOf(stake) else t
  }

  /** GetLastBlockIndex: the last block of the kind at or below `i`, or genesis. */
  function LastOfKind(c: Chain, i: nat, stake: bool): (j: nat)
    requires i < |c|
    ensures j <= i && (j == 0 || c[j].stake == stake)
    ensures forall k :: j < k <= i ==> c[k].stake != stake
  {
    if i > 0 && c[i].stake != stake then LastOfKind(c, i - 1, stake) else i
  }

  method GetLastBlockIndex(c: Chain, i: nat, stake: bool) returns (j: nat)
    requires i < |c|
    ensures j == LastOfKind(c, i, stake)
  {
    j := i;
    while j > 0 && c[j].stake != stake
      invariant j < |c| && LastOfKind(c, j, stake) == LastOfKind(c, i, stake)
    {
      j := j - 1;
    }
  }

  /** Whether the next block has two predecessors of its kind besides genesis, and which they are. */
  predicate HasStep(c: Chain, stake: bool) {
    && c != []
    && LastOfKind(c, |c| - 1, stake) > 0
    && LastOfKind(c, LastOfKind(c, |c| - 1, stake) - 1, stake) > 0
  }

  function Prev(c: Chain, stake: bool): nat
    requires HasStep(c, stake)
  {
    LastOfKind(c, |c| - 1, stake)
  }

  function Spacing(c: Chain, stake: bool): int
    requires HasStep(c, stake)
  {
    c[Prev(c, stake)].time - c[LastOfKind(c, Prev(c, stake) - 1, stake)].time
  }

  predicate BitsOk(c: Chain) {
    forall i :: 0 <= i < |c| ==> c[i].bits < UINT32
  }

  function Required(c: Chain, stake: bool): (bits: nat)
    requires BitsOk(c)
    ensures bits < UINT32
  {
    if HasStep(c, stake) then Encode(NextTarget(Decode(c[Prev(c, stake)].bits), Spacing(c, stake), stake))
    else Encode(LimitOf(stake))
  }

  /** Blocks `q` and `p` are the last two of the kind, above genesis. */
  predicate AreLastTwo(c: Chain, p: nat, q: nat, stake: bool) {
    && 0 < q < p < |c| && c[p].stake == stake && c[q].stake == stake
    && forall k :: q < k < |c| && k != p ==> c[k].stake != stake
  }

  lemma LastTwoFound(c: Chain, stake: bool)
    ensures forall p: nat, q: nat :: AreLastTwo(c, p, q, stake) ==>
      0 < q < p < |c| && HasStep(c, stake) && Prev(c, stake) == p && LastOfKind(c, p - 1, stake) == q
    ensures HasStep(c, stake) ==> AreLastTwo(c, Prev(c, stake), LastOfKind(c, Prev(c, stake) - 1, stake), stake)
  {
    forall p: nat, q: nat | AreLastTwo(c, p, q, stake)
      ensures LastOfKind(c, |c| - 1, stake) == p && LastOfKind(c, p - 1, stake) == q
    {
      var x := LastOfKind(c, |c| - 1, stake);
      assert !(x < p) && !(x > p);
      var y := LastOfKind(c, p - 1, stake);
      assert !(y < q) && !(y > q);
    }
  }

  method GetNextTargetRequired(c: Chain, stake: bool) returns (bits: nat)
    requires BitsOk(c)
    ensures bits == Required(c, stake)
    ensures forall p: nat, q: nat :: AreLastTwo(c, p, q, stake) ==>
      bits == Encode(NextTarget(Decode(c[p].bits), c[p].time - c[q].time, stake))
    ensures (forall p: nat, q: nat :: !AreLastTwo(c, p, q, stake)) ==> bits == Encode(LimitOf(stake))
  {
    hide Encode, Decode, LastOfKind, LimitOf, AreLastTwo, TruncDiv;
    LastTwoFound(c, stake);
    var limit := LimitOf(stake);
    if c == [] {
      bits := GetCompact(limit);
      return;
    }
    var prev := GetLastBlockIndex(c, |c| - 1, stake);
    if prev == 0 {
      bits := GetCompact(limit);
      return;
    }
    var prevPrev := GetLastBlockIndex(c, prev - 1, stake);
    if prevPrev == 0 {
      bits := GetCompact(limit);
      return;
    }
    var actual: int := c[prev].time - c[prevPrev].time;
    if actual < 0 {
      actual := TARGET_SPACING;
    } else if stake && actual > TARGET_SPACING * 10 {
      actual := TARGET_SPACING * 10;
    }
    var was := SetCompact(c[prev].bits);
    var bnNew := was * ((INTERVAL - 1) * TARGET_SPACING + actual + actual);
    assert (INTERVAL - 1) * TARGET_SPACING + actual + actual == (INTERVAL - 1) * TARGET_SPACING + 2 * actual;
    bnNew := TruncDiv(bnNew, (INTERVAL + 1) * TARGET_SPACING);
    if bnNew <= 0 || bnNew > limit {
      bnNew := limit;
    }
    bits := GetCompact(bnNew);
  }

  // ---------------------------------------------------------------- the range of targets

  lemma TargetSmall(v: nat, stake: bool)
    requires v <= LimitOf(stake)
    ensures Size(v) < 256 && Decode(Encode(v)) == Rounded(v)
  {
    LimitFacts(stake);
    SizeMonotone(v, LimitOf(stake));
    Compact.DecodeEncode(v);
  }

  /** Whatever the chain, the required compact target decodes to a value from 1 to the limit. */
  lemma RequiredInRange(c: Chain, stake: bool)
    requires BitsOk(c)
    ensures 1 <= Decode(Required(c, stake)) <= LimitOf(stake)
  {
    hide Encode, Decode, Rounded, LimitOf;
    LimitFacts(stake);
    var t := if HasStep(c, stake) then NextTarget(Decode(c[Prev(c, stake)].bits), Spacing(c, stake), stake) else LimitOf(stake);
    TargetPositive(t, c, stake);
    TargetSmall(t, stake);
    RoundedBounds(t);
  }

  lemma TargetPositive(t: nat, c: Chain, stake: bool)
    requires BitsOk(c)
    requires t == if HasStep(c, stake) then NextTarget(Decode(c[Prev(c, stake)].bits), Spacing(c, stake), stake) else LimitOf(stake)
    ensures 0 < t <= LimitOf(stake)
  {
    LimitFacts(stake);
  }

  /** Every block after genesis carries the target its predecessors require. */
  ghost predicate Accepted(c: Chain) {
    && BitsOk(c)
    && forall i :: 1 <= i < |c| ==> c[i].bits == Required(c[..i], c[i].stake)
  }

  function TrustOf(target: nat): nat {
    UINT256 / (target + 1)
  }

  /** CBlockIndex::GetBlockTrust. */
  function BlockTrust(bits: nat): nat
    requires bits < UINT32
  {
    if Decode(bits) <= 0 then 0 else TrustOf(Decode(bits))
  }

  /** Over every accepted chain targets stay in range, so every block adds trust. */
  lemma AcceptedTargets(c: Chain, i: nat)
    requires Accepted(c) && 1 <= i < |c|
    ensures 1 <= Decode(c[i].bits) <= LimitOf(c[i].stake)
    ensures BlockTrust(c[i].bits) > 0
  {
    hide Required, Decode;
    RequiredInRange(c[..i], c[i].stake);
    LimitFacts(c[i].stake);
    QuotientPositive(UINT256, Decode(c[i].bits) + 1);
  }

  lemma QuotientPositive(a: nat, b: nat)
    requires 0 < b <= a
    ensures a / b > 0
  {
    assert a == a / b * b + a % b;
  }

  // ---------------------------------------------------------------- how far one step goes

  function Scaled(was: nat, spacing: int, stake: bool): (n: nat) {
    var s := EffectiveSpacing(spacing, stake);
    was * (252 + 2 * s) / 308
  }

  lemma NextIsScaled(was: nat, spacing: int, stake: bool)
    ensures var t := Scaled(was, spacing, stake);
      NextTarget(was, spacing, stake) == if t == 0 || t > LimitOf(stake) then LimitOf(stake) else t
  {
  }

  /**
   A proof-of-stake step from a positive target never decodes above old * 812/308, except from target 1
   with a spacing under 28 seconds, where the quotient drops to zero and the limit is taken instead.
   */
  lemma StakeStepBound(was: nat, spacing: int)
    requires was >= 1
    ensures Decode(Encode(NextTarget(was, spacing, true))) * 308 <= was * 812
      <==> !(was == 1 && 0 <= spacing < TARGET_SPACING)
  {
    hide Encode, Decode, Rounded, LimitOf, Scaled, NextTarget;
    var next := NextTarget(was, spacing, true);
    NextIsScaled(was, spacing, true);
    LimitFacts(true);
    TargetSmall(next, true);
    ScaledBounds(was, spacing);
    RoundedBounds(next);
    RoundedLarge(LimitOf(true));
  }

  /** The quotient itself: at most 812/308 of the target, and zero only from 1 with a short spacing. */
  lemma ScaledBounds(was: nat, spacing: int)
    requires was >= 1
    ensures Scaled(was, spacing, true) * 308 <= was * 812
    ensures Scaled(was, spacing, true) == 0 <==> was == 1 && 0 <= spacing < TARGET_SPACING
  {
    var f := 252 + 2 * EffectiveSpacing(spacing, true);
    MulLe(was, was, f, 812);
    if was >= 2 {
      MulLe(2, was, 252, f);
    }
  }

  lemma RoundedLarge(v: nat)
    requires v >= 1000
    ensures Rounded(v) * 308 > 812
  {
    RoundedBounds(v);
  }

  // ---------------------------------------------------------------- monotone in the spacing

  lemma ScaledMonotone(was: nat, a: nat, b: nat, stake: bool)
    requires a <= b
    ensures Scaled(was, a, stake) <= Scaled(was, b, stake)
    ensures was >= 2 ==> Scaled(was, a, stake) >= 1
  {
    var x, y := 252 + 2 * EffectiveSpacing(a, stake), 252 + 2 * EffectiveSpacing(b, stake);
    MulLe(was, was, x, y);
    if was >= 2 {
      MulLe(2, was, 252, x);
    }
  }

  ghost predicate MonotoneInSpacing(was: nat, stake: bool) {
    forall a: nat, b: nat :: a <= b ==>
      Decode(Encode(NextTarget(was, a, stake))) <= Decode(Encode(NextTarget(was, b, stake)))
  }

  /** A longer spacing never requires a smaller target, for every old target but 1. */
  lemma MonotoneUnlessOne(was: nat, stake: bool)
    ensures MonotoneInSpacing(was, stake) <==> was != 1
  {
    if was != 1 {
      forall a: nat, b: nat | a <= b
        ensures Decode(Encode(NextTarget(was, a, stake))) <= Decode(Encode(NextTarget(was, b, stake)))
      {
        StepMonotone(was, a, b, stake);
      }
    } else {
      StepFromOne(stake);
    }
  }

  lemma StepMonotone(was: nat, a: nat, b: nat, stake: bool)
    requires a <= b && was != 1
    ensures Decode(Encode(NextTarget(was, a, stake))) <= Decode(Encode(NextTarget(was, b, stake)))
  {
    hide Encode, Decode, Rounded, LimitOf;
    var s, t := NextTarget(was, a, stake), NextTarget(was, b, stake);
    NextIsScaled(was, a, stake);
    NextIsScaled(was, b, stake);
    ScaledMonotone(was, a, b, stake);
    if was == 0 {
      assert Scaled(was, a, stake) == 0 && Scaled(was, b, stake) == 0;
    }
    TargetSmall(s, stake);
    TargetSmall(t, stake);
    RoundedMonotone(s, t);
  }

  /** From target 1, no spacing at all gives the limit but the regular spacing gives 1. */
  lemma StepFromOne(stake: bool)
    ensures Decode(Encode(NextTarget(1, 0, stake))) > Decode(Encode(NextTarget(1, TARGET_SPACING, stake)))
  {
    hide Encode, Decode, Rounded, LimitOf;
    LimitFacts(stake);
    assert Scaled(1, 0, stake) == 0 && Scaled(1, TARGET_SPACING, stake) == 1;
    TargetSmall(LimitOf(stake), stake);
    TargetSmall(1, stake);
    RoundedBounds(LimitOf(stake));
    RoundedBounds(1);
  }

  // ---------------------------------------------------------------- only blocks of the kind matter

  /** The blocks of the kind, in order. */
  function OfKind(s: seq<BlockIndex>, stake: bool): seq<BlockIndex> {
    if s == [] then []
    else
      var init, last := OfKind(s[..|s| - 1], stake), s[|s| - 1];
      if last.stake == stake then init + [last] else init
  }

  /** The blocks of the kind above genesis and up to `i`. */
  function KindUpTo(c: Chain, i: nat, stake: bool): seq<BlockIndex>
    requires i < |c|
  {
    OfKind(c[1..i + 1], stake)
  }

  /** Above genesis, the last block of the kind up to `i` ends the list of that kind. */
  lemma {:induction false} LastEndsKind(c: Chain, i: nat, stake: bool)
    requires i < |c|
    ensures var j := LastOfKind(c, i, stake);
      KindUpTo(c, i, stake) == if j == 0 then [] else KindUpTo(c, j - 1, stake) + [c[j]]
  {
    if i == 0 {
      assert c[1..1] == [];
    } else {
      assert c[1..i + 1][..i - 1] == c[1..i] && c[1..i + 1][i - 1] == c[i];
      if c[i].stake != stake {
        LastEndsKind(c, i - 1, stake);
      }
    }
  }

  /**
   The required target is a function of the last two blocks of the kind above genesis: the target of the last one
   and the time between the two. With fewer than two it is the limit.
   */
  lemma RequiredFromKind(c: Chain, stake: bool)
    requires BitsOk(c) && c != []
    ensures var k := OfKind(c[1..], stake);
      if |k| < 2 then Required(c, stake) == Encode(LimitOf(stake))
      else
        && k[|k| - 1].bits < UINT32
        && Required(c, stake) == Encode(NextTarget(Decode(k[|k| - 1].bits), k[|k| - 1].time - k[|k| - 2].time, stake))
  {
    hide Encode, Decode, NextTarget, LimitOf, LastOfKind, OfKind, KindUpTo;
    WholeKind(c, stake);
    KindEnds(c, stake);
  }

  /** The two blocks that a step takes are the last two of their kind. */
  lemma KindEnds(c: Chain, stake: bool)
    requires c != []
    ensures var k := KindUpTo(c, |c| - 1, stake);
      && (HasStep(c, stake) <==> |k| >= 2)
      && (HasStep(c, stake) ==>
            k[|k| - 1] == c[Prev(c, stake)] && k[|k| - 2] == c[LastOfKind(c, Prev(c, stake) - 1, stake)])
  {
    hide LastOfKind, OfKind, KindUpTo;
    var p := LastOfKind(c, |c| - 1, stake);
    LastEndsKind(c, |c| - 1, stake);
    if p > 0 {
      KindSteps(c, p, stake);
    }
  }

  lemma KindSteps(c: Chain, p: nat, stake: bool)
    requires 0 < p < |c|
    ensures var k, q := KindUpTo(c, p - 1, stake) + [c[p]], LastOfKind(c, p - 1, stake);
      && (q > 0 <==> |k| >= 2) && k[|k| - 1] == c[p]
      && (q > 0 ==> k[|k| - 2] == c[q])
  {
    hide LastOfKind, KindUpTo;
    LastEndsKind(c, p - 1, stake);
  }

  lemma WholeKind(c: Chain, stake: bool)
    requires c != []
    ensures KindUpTo(c, |c| - 1, stake) == OfKind(c[1..], stake)
  {
    assert c[1..|c|] == c[1..];
  }

  lemma {:induction false} OtherKindSkipped(a: seq<BlockIndex>, b: BlockIndex, d: seq<BlockIndex>, stake: bool)
    requires b.stake != stake
    ensures OfKind(a + [b] + d, stake) == OfKind(a + d, stake)
    decreases |d|
  {
    if d == [] {
      assert a + [b] + d == a + [b] && (a + [b])[..|a|] == a && a + d == a;
    } else {
      var init, last := d[..|d| - 1], d[|d| - 1];
      assert a + [b] + d == (a + [b] + init) + [last] && a + d == (a + init) + [last];
      assert (a + [b] + d)[..|a + [b] + d| - 1] == a + [b] + init;
      assert (a + d)[..|a + d| - 1] == a + init;
      OtherKindSkipped(a, b, init, stake);
    }
  }

  /** A block of the other kind anywhere above genesis makes no difference. */
  lemma OtherKindMakesNoDifference(a: Chain, b: BlockIndex, d: Chain, stake: bool)
    requires a != [] && b.stake != stake && BitsOk(a) && BitsOk([b]) && BitsOk(d)
    ensures BitsOk(a + [b] + d) && BitsOk(a + d)
    ensures Required(a + [b] + d, stake) == Required(a + d, stake)
  {
    hide Encode, Decode, NextTarget, LimitOf, OfKind, Required;
    Joined(a, [b]);
    Joined(a + [b], d);
    Joined(a, d);
    RequiredFromKind(a + [b] + d, stake);
    RequiredFromKind(a + d, stake);
    assert (a + [b] + d)[1..] == a[1..] + [b] + d && (a + d)[1..] == a[1..] + d;
    OtherKindSkipped(a[1..], b, d, stake);
  }

  lemma Joined(a: Chain, b: Chain)
    requires BitsOk(a) && BitsOk(b)
    ensures BitsOk(a + b)
  {
  }

  /** The regular spacing keeps the target, and so does one that runs backwards. */
  lemma RegularSpacingKeeps(was: nat, spacing: int, stake: bool)
    requires 1 <= was <= LimitOf(stake) && (spacing == 28 || spacing < 0)
    ensures NextTarget(was, spacing, stake) == was
  {
    NextIsScaled(was, spacing, stake);
    DivMod(was, 308, 0);
  }

  /** One step in numbers: old * (252 + 2 * spacing) / 308, where proof of stake counts at most 280 seconds. */
  lemma StepInNumbers(was: nat, spacing: nat, stake: bool)
    ensures var s := if stake && spacing > 280 then 280 else spacing;
      var t := was * (252 + 2 * s) / 308;
      NextTarget(was, spacing, stake) == if 1 <= t <= LimitOf(stake) then t else LimitOf(stake)
  {
    NextIsScaled(was, spacing, stake);
  }
}
