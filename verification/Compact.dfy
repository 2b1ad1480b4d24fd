/**
 CBigNum::SetCompact and GetCompact: the 32-bit floating form of difficulty targets, built on the
 MPI byte format (big-endian magnitude, sign in the top bit of the first byte).
 */
module Compact {
  import opened Positional

  const UINT32: nat := 0x1_0000_0000

  /** Magnitude bytes of the MPI form: a zero byte in front when the top bit would read as a sign. */
  function MpiMagnitude(v: nat): seq<nat> {
    var d := Digits(v, 256);
    if d != [] && d[0] >= 128 then [0] + d else d
  }

  /** BN_bn2mpi without its length prefix. */
  function ToMpi(v: int): seq<nat> {
    var d := if v < 0 then MpiMagnitude(-v) else MpiMagnitude(v);
    if v < 0 && d != [] then [d[0] + 128] + d[1..] else d
  }

  /** BN_mpi2bn without its length prefix. */
  function FromMpi(s: seq<nat>): int {
    if s == [] then 0
    else if s[0] >= 128 then 0 - Value([s[0] - 128] + s[1..], 256) as int
    else Value(s, 256)
  }

  function ByteAt(s: seq<nat>, i: nat): nat {
    if i < |s| then s[i] else 0
  }

  function PackCompact(s: seq<nat>): nat {
    (|s| * 0x100_0000 + ByteAt(s, 0) * 0x1_0000 + ByteAt(s, 1) * 0x100 + ByteAt(s, 2)) % UINT32
  }

  /** The bytes a compact number stands for: its top three, then zeros. */
  function UnpackCompact(c: nat): (s: seq<nat>)
    requires c < UINT32
    ensures |s| == c / 0x100_0000
  {
    seq(c / 0x100_0000, i =>
      if i == 0 then c / 0x1_0000 % 0x100
      else if i == 1 then c / 0x100 % 0x100
      else if i == 2 then c % 0x100
      else 0)
  }

  method GetCompact(v: int) returns (c: nat)
    ensures c == Encode(v)
  {
    var vch := ToMpi(v);
    var size := |vch|;
    c := size * 0x100_0000;
    if size >= 1 {
      c := c + vch[0] * 0x1_0000;
    }
    if size >= 2 {
      c := c + vch[1] * 0x100;
    }
    if size >= 3 {
      c := c + vch[2];
    }
    c := c % UINT32;
  }

  method SetCompact(c: nat) returns (v: int)
    requires c < UINT32
    ensures v == Decode(c)
  {
    var size := c / 0x100_0000;
    var vch := new nat[size](_ => 0);
    if size >= 1 {
      vch[0] := c / 0x1_0000 % 0x100;
    }
    if size >= 2 {
      vch[1] := c / 0x100 % 0x100;
    }
    if size >= 3 {
      vch[2] := c % 0x100;
    }
    assert vch[..] == UnpackCompact(c);
    v := FromMpi(vch[..]);
  }

  function Encode(v: int): (c: nat)
    ensures c < UINT32
  {
    PackCompact(ToMpi(v))
  }

  function Decode(c: nat): int
    requires c < UINT32
  {
    FromMpi(UnpackCompact(c))
  }

  // ---------------------------------------------------------------- sizes

  function Size(v: nat): nat {
    |MpiMagnitude(v)|
  }

  lemma MagnitudeFacts(v: nat)
    ensures Value(MpiMagnitude(v), 256) == v && AllBelow(MpiMagnitude(v), 256)
    ensures v > 0 ==> Size(v) > 0 && MpiMagnitude(v)[0] < 128
    ensures v == 0 ==> Size(v) == 0
    ensures Size(v) >= 2 && MpiMagnitude(v)[0] == 0 ==> MpiMagnitude(v)[1] >= 128
    ensures Size(v) >= 1 && MpiMagnitude(v)[0] == 0 ==> Size(v) >= 2
  {
    var d := Digits(v, 256);
    DigitsValue(v, 256);
    DigitsShape(v, 256);
    if d != [] && d[0] >= 128 {
      assert ([0] + d)[1..] == d;
    }
  }

  lemma {:induction false} ValueConcat(a: seq<nat>, b: seq<nat>)
    ensures Value(a + b, 256) == Value(a, 256) * Pow(256, |b|) + Value(b, 256)
  {
    if a == [] {
      assert a + b == b;
    } else {
      assert (a + b)[1..] == a[1..] + b;
      ValueConcat(a[1..], b);
      PowAdd(256, |a| - 1, |b|);
      Distribute(a[0], Pow(256, |a| - 1), Value(a[1..], 256), Pow(256, |b|));
    }
  }

  lemma Distribute(x: nat, p: nat, v: nat, q: nat)
    ensures (x * p + v) * q == x * (p * q) + v * q
  {
  }

  /** The numbers of each size: half a place up to half a place. */
  lemma SizeRange(v: nat)
    requires v > 0
    ensures Size(v) >= 1 && v < 128 * Pow(256, Size(v) - 1)
    ensures Size(v) >= 2 ==> v >= 128 * Pow(256, Size(v) - 2)
  {
    MagnitudeFacts(v);
    var s := MpiMagnitude(v);
    ValueBound(s[1..], 256);
    assert s == [s[0]] + s[1..];
    MulLe(s[0], 127, Pow(256, |s| - 1), Pow(256, |s| - 1));
    if |s| >= 2 {
      if s[0] == 0 {
        MulLe(128, s[1], Pow(256, |s| - 2), Pow(256, |s| - 2));
        assert s[1..][0] == s[1];
      } else {
        MulLe(1, s[0], Pow(256, |s| - 1), Pow(256, |s| - 1));
        assert Pow(256, |s| - 1) == 256 * Pow(256, |s| - 2);
      }
    }
  }

  lemma SizeMonotone(v: nat, w: nat)
    requires v <= w
    ensures Size(v) <= Size(w)
  {
    MagnitudeFacts(v);
    MagnitudeFacts(w);
    if v > 0 && Size(w) < Size(v) {
      SizeRange(v);
      SizeRange(w);
      PowMonotoneExp(256, Size(w) - 1, Size(v) - 2);
    }
  }

  // ---------------------------------------------------------------- what survives the encoding

  /** The top three bytes of `v`, the others cleared. */
  function Rounded(v: nat): nat {
    if Size(v) <= 3 then v else v / Pow(256, Size(v) - 3) * Pow(256, Size(v) - 3)
  }

  lemma TopThree(v: nat)
    requires Size(v) >= 3
    ensures Value(MpiMagnitude(v)[..3], 256) == v / Pow(256, Size(v) - 3)
  {
    hide Value, MpiMagnitude, Pow;
    var s := MpiMagnitude(v);
    MagnitudeFacts(v);
    assert s == s[..3] + s[3..];
    ValueConcat(s[..3], s[3..]);
    ValueBound(s[3..], 256);
    DivMod(Value(s[..3], 256), Pow(256, |s| - 3), Value(s[3..], 256));
  }

  /** Unpacking a packed magnitude keeps its first three bytes and its length. */
  lemma UnpackPack(s: seq<nat>)
    requires AllBelow(s, 256) && |s| < 256
    ensures |UnpackCompact(PackCompact(s))| == |s|
    ensures forall i :: 0 <= i < |s| ==> UnpackCompact(PackCompact(s))[i] == if i < 3 then s[i] else 0
  {
    SplitBytes(|s|, ByteAt(s, 0), ByteAt(s, 1), ByteAt(s, 2));
  }

  lemma SplitBytes(size: nat, a: nat, b: nat, c: nat)
    requires size < 256 && a < 256 && b < 256 && c < 256
    ensures var n := size * 0x100_0000 + a * 0x1_0000 + b * 0x100 + c;
      && n < UINT32 && n / 0x100_0000 == size
      && n / 0x1_0000 % 0x100 == a && n / 0x100 % 0x100 == b && n % 0x100 == c
  {
    var n := size * 0x100_0000 + a * 0x1_0000 + b * 0x100 + c;
    assert n / 0x100_0000 == size;
    assert n / 0x1_0000 == size * 0x100 + a;
    assert n / 0x100 == size * 0x1_0000 + a * 0x100 + b;
  }

  /** Decoding an encoded number gives the number rounded down to three bytes. */
  lemma DecodeEncode(v: nat)
    requires Size(v) < 256
    ensures Decode(Encode(v)) == Rounded(v)
  {
    hide Value, MpiMagnitude, Pow, PackCompact, UnpackCompact;
    var s := MpiMagnitude(v);
    MagnitudeFacts(v);
    UnpackPack(s);
    var t := UnpackCompact(Encode(v));
    if |s| <= 3 {
      assert t == s;
    } else {
      assert t == s[..3] + Zeros(|s| - 3);
      ValueConcat(s[..3], Zeros(|s| - 3));
      assert Zeros(|s| - 3) + [] == Zeros(|s| - 3);
      ValueZeros(|s| - 3, [], 256);
      ValueNone(256);
      TopThree(v);
    }
  }

  /** What rounding keeps: never up, never to zero, and less than one part in 2^15 is lost. */
  lemma RoundedBounds(v: nat)
    requires v > 0
    ensures 0 < Rounded(v) <= v
    ensures (v - Rounded(v)) * 0x8000 < v
    ensures Size(v) >= 2 ==> Rounded(v) >= 128 * Pow(256, Size(v) - 2)
  {
    SizeRange(v);
    if Size(v) > 3 {
      var p := Pow(256, Size(v) - 3);
      assert Pow(256, Size(v) - 2) == 256 * p;
      var q, r := QuotRem(v, p);
      QuotientAtLeast(v, p, q, r);
      MulLe(0x8000, q, p, p);
    }
  }

  lemma QuotientAtLeast(v: nat, p: nat, q: nat, r: nat)
    requires p > 0 && v == q * p + r && r < p && v >= 0x8000 * p
    ensures q >= 0x8000
  {
    assert (q + 1) * p == q * p + p;
    if q < 0x8000 {
      MulLe(q + 1, 0x8000, p, p);
    }
  }

  lemma DivMonotone(v: nat, w: nat, p: nat)
    requires v <= w && p > 0
    ensures v / p * p <= w / p * p
  {
    var a, b := v / p, w / p;
    assert (b + 1) * p == b * p + p;
    if a > b {
      MulLe(b + 1, a, p, p);
    }
    MulLe(a, if a <= b then b else a, p, p);
  }

  /** Rounding, hence encoding and decoding, is monotone. */
  lemma RoundedMonotone(v: nat, w: nat)
    requires v <= w
    ensures Rounded(v) <= Rounded(w)
  {
    if v > 0 {
      SizeMonotone(v, w);
      RoundedBounds(v);
      RoundedBounds(w);
      if Size(v) == Size(w) {
        if Size(v) > 3 {
          DivMonotone(v, w, Pow(256, Size(v) - 3));
        }
      } else {
        SizeRange(v);
        PowMonotoneExp(256, Size(v) - 1, Size(w) - 2);
      }
    }
  }
}
