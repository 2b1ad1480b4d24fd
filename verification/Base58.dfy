/**
 EncodeBase58, DecodeBase58 and their checksummed forms: in-place base conversion in buffers whose
 size is a fixed fraction of the input, proved large enough so that no carry is ever left over.
 */
module Base58 {
  import opened Wrappers
  import opened Positional

  type Byte = x: nat | x < 256

  // ---------------------------------------------------------------- the alphabet

  /** All alphanumeric characters except "0", "I", "O" and "l", in character order. */
  function CharOf(d: nat): char
    requires d < 58
  {
    if d < 9 then '1' + d as char
    else if d < 17 then 'A' + (d - 9) as char
    else if d < 22 then 'J' + (d - 17) as char
    else if d < 33 then 'P' + (d - 22) as char
    else if d < 44 then 'a' + (d - 33) as char
    else 'm' + (d - 44) as char
  }

  /** Position of a character in the alphabet, as strchr finds it. */
  function DigitOf(c: char): (r: Option<nat>)
    ensures r.Some? ==> r.value < 58 && CharOf(r.value) == c
    ensures r.None? ==> forall d :: 0 <= d < 58 ==> CharOf(d) != c
  {
    if '1' <= c <= '9' then Some(c as int - '1' as int)
    else if 'A' <= c <= 'H' then Some(c as int - 'A' as int + 9)
    else if 'J' <= c <= 'N' then Some(c as int - 'J' as int + 17)
    else if 'P' <= c <= 'Z' then Some(c as int - 'P' as int + 22)
    else if 'a' <= c <= 'k' then Some(c as int - 'a' as int + 33)
    else if 'm' <= c <= 'z' then Some(c as int - 'm' as int + 44)
    else None
  }

  lemma DigitOfChar(d: nat)
    requires d < 58
    ensures DigitOf(CharOf(d)) == Some(d) && (CharOf(d) == '1' <==> d == 0)
    ensures !IsSpace(CharOf(d)) && CharOf(d) != '\0'
  {
  }

  /** isspace in the C locale. */
  predicate IsSpace(c: char) {
    c == ' ' || c == '\t' || c == '\n' || c == '\U{000B}' || c == '\U{000C}' || c == '\r'
  }

  function Text(digits: seq<nat>): (s: string)
    requires AllBelow(digits, 58)
    ensures |s| == |digits| && forall i :: 0 <= i < |s| ==> s[i] == CharOf(digits[i])
  {
    seq(|digits|, i requires 0 <= i < |digits| => CharOf(digits[i]))
  }

  predicate IsText(s: string) {
    forall i :: 0 <= i < |s| ==> DigitOf(s[i]).Some?
  }

  function DigitsIn(s: string): (d: seq<nat>)
    requires IsText(s)
    ensures |d| == |s| && AllBelow(d, 58) && forall i :: 0 <= i < |s| ==> DigitOf(s[i]) == Some(d[i])
  {
    seq(|s|, i requires 0 <= i < |s| => DigitOf(s[i]).value)
  }

  lemma TextRoundTrip(digits: seq<nat>)
    requires AllBelow(digits, 58)
    ensures IsText(Text(digits)) && DigitsIn(Text(digits)) == digits
  {
    forall i | 0 <= i < |digits|
      ensures DigitOf(Text(digits)[i]) == Some(digits[i])
    {
      DigitOfChar(digits[i]);
    }
  }

  lemma DigitsRoundTrip(s: string)
    requires IsText(s)
    ensures Text(DigitsIn(s)) == s
  {
  }

  /** The alphabet as one string. */
  const ALPHABET: string := "123456789" + "ABCDEFGH" + "JKLMN" + "PQRSTUVWXYZ" + "abcdefghijk" + "mnopqrstuvwxyz"

  lemma AlphabetIs(d: nat)
    requires d < 58
    ensures |ALPHABET| == 58 && CharOf(d) == ALPHABET[d]
  {
    var a, b, c, e, f, g := "123456789", "ABCDEFGH", "JKLMN", "PQRSTUVWXYZ", "abcdefghijk", "mnopqrstuvwxyz";
    assert forall i :: 0 <= i < 9 ==> a[i] == '1' + i as char;
    assert forall i :: 0 <= i < 8 ==> b[i] == 'A' + i as char;
    assert forall i :: 0 <= i < 5 ==> c[i] == 'J' + i as char;
    assert forall i :: 0 <= i < 11 ==> e[i] == 'P' + i as char;
    assert forall i :: 0 <= i < 11 ==> f[i] == 'a' + i as char;
    assert forall i :: 0 <= i < 14 ==> g[i] == 'm' + i as char;
  }

  // ---------------------------------------------------------------- what the codec computes

  /** Change of base that keeps leading zeros one for one. */
  function Convert(s: seq<nat>, from: nat, to: nat): seq<nat>
    requires to >= 2
  {
    Zeros(LeadingZeros(s)) + Digits(Value(s, from), to)
  }

  lemma ConvertBelow(s: seq<nat>, from: nat, to: nat)
    requires to >= 2
    ensures AllBelow(Convert(s, from, to), to)
  {
    DigitsShape(Value(s, from), to);
  }

  lemma {:induction false} LeadingZerosOf(n: nat, s: seq<nat>)
    requires s != [] ==> s[0] != 0
    ensures LeadingZeros(Zeros(n) + s) == n
  {
    if n == 0 {
      assert Zeros(0) + s == s;
    } else {
      assert (Zeros(n) + s)[1..] == Zeros(n - 1) + s;
      LeadingZerosOf(n - 1, s);
    }
  }

  /** Converting there and back is the identity on every digit string. */
  lemma ConvertRoundTrip(s: seq<nat>, from: nat, to: nat)
    requires from >= 2 && to >= 2 && AllBelow(s, from)
    ensures Convert(Convert(s, from, to), to, from) == s
  {
    var n, v := LeadingZeros(s), Value(s, from);
    DigitsShape(v, to);
    DigitsValue(v, to);
    LeadingZerosOf(n, Digits(v, to));
    ValueZeros(n, Digits(v, to), to);
    StripZeros(s, from);
    assert s == s[..n] + s[n..];
  }

  function Encoded(bytes: seq<Byte>): string {
    ConvertBelow(bytes, 256, 58);
    Text(Convert(bytes, 256, 58))
  }

  function SkipSpaces(s: string): (t: string)
    ensures |t| <= |s| && t == s[|s| - |t|..]
  {
    if s != [] && IsSpace(s[0]) then SkipSpaces(s[1..]) else s
  }

  function Word(s: string): (t: string)
    ensures |t| <= |s| && t == s[..|t|]
    ensures forall i :: 0 <= i < |t| ==> !IsSpace(t[i])
    ensures |t| < |s| ==> IsSpace(s[|t|])
  {
    if s != [] && !IsSpace(s[0]) then [s[0]] + Word(s[1..]) else []
  }

  predicate AllSpace(s: string) {
    forall i :: 0 <= i < |s| ==> IsSpace(s[i])
  }

  /** The part of a C++ string that its `c_str()` shows. */
  function CString(s: string): (t: string)
    ensures '\0' !in t && |t| <= |s| && t == s[..|t|] && (|t| < |s| ==> s[|t|] == '\0')
  {
    if s == [] || s[0] == '\0' then [] else [s[0]] + CString(s[1..])
  }

  /** One word, possibly surrounded by spaces; all of it in the alphabet. */
  function Decoded(s: string): Option<seq<nat>> {
    var t := SkipSpaces(CString(s));
    var word := Word(t);
    if IsText(word) && AllSpace(t[|word|..]) then Some(Convert(DigitsIn(word), 58, 256)) else None
  }

  // ---------------------------------------------------------------- the buffers are large enough

  lemma BufferFits58(k: nat)
    ensures Pow(256, k) <= Pow(58, k * 138 / 100 + 1)
  {
    hide Pow;
    PowerOf58();
    DigitsFit(256, 58, 11, 8, k, k * 138 / 100 + 1);
  }

  lemma PowerOf58()
    ensures Pow(256, 8) <= Pow(58, 11)
  {
    hide Pow;
    SmallPowers();
    PowAdd(58, 4, 4);
    PowAdd(58, 8, 3);
    PowAdd(256, 4, 4);
  }

  lemma BufferFits256(k: nat)
    ensures Pow(58, k) <= Pow(256, k * 733 / 1000 + 1)
  {
    hide Pow;
    PowerOf256();
    DigitsFit(58, 256, 52, 71, k, k * 733 / 1000 + 1);
  }

  lemma SmallPowers()
    ensures Pow(58, 4) == 11316496 && Pow(58, 3) == 195112 && Pow(256, 4) == 4294967296
  {
  }

  lemma PowerOf256()
    ensures Pow(58, 71) <= Pow(256, 52)
  {
    hide Pow;
    SmallPowers();
    PowAdd(58, 4, 4);
    PowAdd(58, 8, 8);
    PowAdd(58, 16, 16);
    PowAdd(58, 32, 32);
    PowAdd(58, 4, 3);
    PowAdd(58, 64, 7);
    PowAdd(256, 4, 4);
    PowAdd(256, 8, 8);
    PowAdd(256, 16, 16);
    PowAdd(256, 32, 16);
    PowAdd(256, 48, 4);
  }

  // ---------------------------------------------------------------- in-place multiply and add

  /** The inner loop: `buf := buf * mul + add` to base `base`, from the last digit to the first. */
  method MulAdd(buf: array<nat>, base: nat, mul: nat, add: nat) returns (carry: nat)
    requires base > 0 && AllBelow(buf[..], base)
    modifies buf
    ensures AllBelow(buf[..], base)
    ensures Value(buf[..], base) + carry * Pow(base, buf.Length) == Value(old(buf[..]), base) * mul + add
  {
    hide Value, Pow, Balanced;
    carry := add;
    var i := buf.Length;
    ghost var was := buf[..];
    assert buf[i..] == [] && was[i..] == [];
    BalancedAtFirst(base, mul, add);
    while i > 0
      invariant 0 <= i <= buf.Length && AllBelow(buf[..], base)
      invariant forall k :: 0 <= k < i ==> buf[k] == was[k]
      invariant Balanced(Value(buf[i..], base), carry, Pow(base, buf.Length - i), Value(was[i..], base), mul, add)
    {
      i := i - 1;
      ghost var rest := buf[i + 1..];
      var x := carry + mul * buf[i];
      ghost var carry0 := carry;
      buf[i] := x % base;
      carry := x / base;
      assert buf[i..] == [x % base] + rest;
      assert was[i..] == [was[i]] + was[i + 1..];
      BalancedNext(base, mul, add, was[i], carry0, x / base, x % base, rest, was[i + 1..]);
    }
    assert buf[0..] == buf[..] && was[0..] == was;
    BalancedMeans(Value(buf[..], base), carry, Pow(base, buf.Length), Value(was, base), mul, add);
  }

  /** The digits written so far and the carry make up the digits read so far, times `mul` plus `add`. */
  ghost predicate Balanced(v: nat, carry: nat, p: nat, w: nat, mul: nat, add: nat) {
    v + carry * p == w * mul + add
  }

  lemma BalancedMeans(v: nat, carry: nat, p: nat, w: nat, mul: nat, add: nat)
    requires Balanced(v, carry, p, w, mul, add)
    ensures v + carry * p == w * mul + add
  {
  }

  lemma BalancedAtFirst(base: nat, mul: nat, add: nat)
    ensures Balanced(Value([], base), add, Pow(base, 0), Value([], base), mul, add)
  {
  }

  lemma BalancedNext(base: nat, mul: nat, add: nat, d: nat, carry: nat, q: nat, r: nat, rest: seq<nat>, was: seq<nat>)
    requires carry + mul * d == q * base + r && |rest| == |was|
    requires Balanced(Value(rest, base), carry, Pow(base, |rest|), Value(was, base), mul, add)
    ensures Balanced(Value([r] + rest, base), q, Pow(base, |rest| + 1), Value([d] + was, base), mul, add)
  {
    hide Value, Pow;
    ValueCons(r, rest, base);
    ValueCons(d, was, base);
    MulAddStep(base, mul, add, d, carry, q, r, Pow(base, |rest|), Value(rest, base), Value(was, base));
  }

  lemma ValueCons(d: nat, rest: seq<nat>, base: nat)
    ensures Value([d] + rest, base) == d * Pow(base, |rest|) + Value(rest, base)
    ensures Pow(base, |rest| + 1) == base * Pow(base, |rest|)
  {
    assert ([d] + rest)[1..] == rest;
  }

  lemma MulAddStep(base: nat, mul: nat, add: nat, d: nat, carry: nat, q: nat, r: nat, p: nat, v: nat, w: nat)
    requires carry + mul * d == q * base + r && Balanced(v, carry, p, w, mul, add)
    ensures Balanced(r * p + v, q, base * p, d * p + w, mul, add)
  {
    var x := carry + mul * d;
    assert r * p + q * (base * p) == x * p;
    assert x * p == carry * p + (d * p) * mul;
    assert (d * p + w) * mul == (d * p) * mul + w * mul;
  }

  /** Feeding one more digit keeps the buffer equal to the digits fed so far, with no carry out. */
  method Feed(buf: array<nat>, base: nat, mul: nat, ghost fed: seq<nat>, d: nat, ghost total: nat)
    requires base >= 2 && AllBelow(buf[..], base) && AllBelow(fed, mul) && d < mul
    requires Value(buf[..], base) == Value(fed, mul)
    requires |fed| < total && Pow(mul, total) <= Pow(base, buf.Length)
    modifies buf
    ensures AllBelow(buf[..], base) && Value(buf[..], base) == Value(fed + [d], mul)
  {
    ghost var was := buf[..];
    var carry := MulAdd(buf, base, mul, d);
    assert Value(fed + [d], mul) < Pow(base, buf.Length) by {
      ValueBound(fed + [d], mul);
      PowMonotoneExp(mul, |fed| + 1, total);
    }
    ValueAppend(fed, d, mul);
    if carry > 0 {
      MulLe(1, carry, Pow(base, buf.Length), Pow(base, buf.Length));
    }
    assert carry == 0;
  }

  // ---------------------------------------------------------------- the codec

  method CountZeros(s: seq<nat>) returns (n: nat)
    ensures n == LeadingZeros(s)
  {
    n := 0;
    while n < |s| && s[n] == 0
      invariant n <= |s| && LeadingZeros(s) == n + LeadingZeros(s[n..])
    {
      assert s[n..][1..] == s[n + 1..];
      n := n + 1;
    }
    assert n < |s| ==> s[n..][0] == s[n];
  }

  /** Fills a buffer of `size` digits with the digits `s`, re-based; the asserts on the carry all hold. */
  method Rebase(s: seq<nat>, from: nat, to: nat, size: nat) returns (buf: array<nat>)
    requires from >= 2 && to >= 2 && AllBelow(s, from) && Pow(from, |s|) <= Pow(to, size)
    ensures fresh(buf) && AllBelow(buf[..], to) && Value(buf[..], to) == Value(s, from)
  {
    buf := new nat[size](_ => 0);
    assert buf[..] == Zeros(size) + [];
    ValueZeros(size, [], to);
    assert s[..0] == [];
    for k := 0 to |s|
      invariant AllBelow(buf[..], to) && Value(buf[..], to) == Value(s[..k], from)
    {
      assert s[..k + 1] == s[..k] + [s[k]];
      Feed(buf, to, from, s[..k], s[k], |s|);
    }
    assert s[..|s|] == s;
  }

  /** Re-basing what follows the leading zeros, then skipping the buffer's own leading zeros, converts. */
  method ConvertWith(s: seq<nat>, zeroes: nat, from: nat, to: nat, size: nat) returns (r: seq<nat>)
    requires from >= 2 && to >= 2 && AllBelow(s, from)
    requires zeroes <= |s| && s[..zeroes] == Zeros(zeroes) && Pow(from, |s| - zeroes) <= Pow(to, size)
    ensures r == Zeros(zeroes) + Digits(Value(s, from), to)
  {
    var rest := s[zeroes..];
    var buf := Rebase(rest, from, to, size);
    var skip := CountZeros(buf[..]);
    StripZeros(buf[..], to);
    ValueZeros(zeroes, rest, from);
    assert s == Zeros(zeroes) + rest;
    r := Zeros(zeroes) + buf[skip..];
    assert buf[skip..] == buf[..][skip..];
  }

  method EncodeBase58(bytes: seq<Byte>) returns (s: string)
    ensures s == Encoded(bytes)
  {
    var zeroes := CountZeros(bytes);
    var n := |bytes| - zeroes;
    BufferFits58(n);
    var digits := ConvertWith(bytes, zeroes, 256, 58, n * 138 / 100 + 1);
    ConvertBelow(bytes, 256, 58);
    s := Text(digits);
  }

  /** Skipping spaces from position `i` of a C string. */
  method SkipFrom(s: string, i: nat) returns (j: nat)
    requires i <= |s|
    ensures i <= j <= |s| && s[j..] == SkipSpaces(s[i..])
  {
    j := i;
    while j < |s| && IsSpace(s[j])
      invariant i <= j <= |s| && SkipSpaces(s[j..]) == SkipSpaces(s[i..])
    {
      assert s[j..][1..] == s[j + 1..];
      j := j + 1;
    }
  }

  /** `t` starts with exactly `n` characters '1'. */
  ghost predicate LeadingOnes(t: string, n: nat) {
    n <= |t| && (forall k :: 0 <= k < n ==> t[k] == '1') && (n < |t| ==> t[n] != '1')
  }

  lemma LeadingOnesStep(t: string, n: nat)
    requires LeadingOnes(t, n) && n > 0
    ensures t != [] && t[0] == '1' && LeadingOnes(t[1..], n - 1)
  {
  }

  /** Skipping and counting leading '1's, the zeros of the alphabet. */
  method CountOnes(s: string, i: nat) returns (zeroes: nat)
    requires i <= |s|
    ensures i + zeroes <= |s| && LeadingOnes(s[i..], zeroes)
  {
    zeroes := 0;
    while i + zeroes < |s| && s[i + zeroes] == '1'
      invariant i + zeroes <= |s| && forall k :: i <= k < i + zeroes ==> s[k] == '1'
    {
      zeroes := zeroes + 1;
    }
  }

  /** Feeding the buffer characters up to the first space; `false` on a character outside the alphabet. */
  method FeedWord(s: string, i: nat, buf: array<nat>) returns (ok: bool, j: nat)
    requires i <= |s| && AllBelow(buf[..], 256) && Value(buf[..], 256) == 0
    requires Pow(58, |s| - i) <= Pow(256, buf.Length)
    modifies buf
    ensures ok <==> IsText(Word(s[i..]))
    ensures ok ==> j == i + |Word(s[i..])| && AllBelow(buf[..], 256)
    ensures ok ==> Value(buf[..], 256) == Value(DigitsIn(Word(s[i..])), 58)
  {
    j := i;
    var digits: seq<nat> := [];
    ghost var word := Word(s[i..]);
    while j < |s| && !IsSpace(s[j])
      invariant i <= j <= i + |word| && |digits| == j - i && AllBelow(digits, 58)
      invariant forall k :: 0 <= k < |digits| ==> DigitOf(word[k]) == Some(digits[k])
      invariant AllBelow(buf[..], 256) && Value(buf[..], 256) == Value(digits, 58)
    {
      assert j - i < |word| && word[j - i] == s[j];
      var d := DigitOf(s[j]);
      if d.None? {
        assert DigitOf(word[j - i]).None?;
        return false, j;
      }
      Feed(buf, 256, 58, digits, d.value, |s| - i);
      digits, j := digits + [d.value], j + 1;
    }
    assert j - i == |word|;
    assert digits == DigitsIn(word);
    return true, j;
  }

  lemma OneIsZero(c: char)
    requires c == '1'
    ensures !IsSpace(c) && DigitOf(c) == Some(0)
  {
    DigitOfChar(0);
  }

  lemma WordUnfolds(s: string)
    requires s != [] && !IsSpace(s[0])
    ensures Word(s) == [s[0]] + Word(s[1..])
  {
  }

  lemma OneMoreZero(c: char, word: string)
    requires DigitOf(c) == Some(0)
    ensures IsText([c] + word) <==> IsText(word)
    ensures IsText(word) ==> DigitsIn([c] + word) == [0] + DigitsIn(word)
  {
    hide DigitOf;
    var t := [c] + word;
    assert forall i :: 0 <= i < |word| ==> word[i] == t[i + 1];
    if IsText(word) {
      forall i | 0 <= i < |t|
        ensures DigitOf(t[i]).Some?
      {
      }
      forall i | 0 <= i < |t|
        ensures DigitsIn(t)[i] == ([0] + DigitsIn(word))[i]
      {
        assert DigitOf(t[i]) == Some(DigitsIn(t)[i]);
      }
    }
  }

  /** Leading '1's are leading zeros of the word. */
  lemma {:induction false} OnesAreZeros(n: nat, t: string)
    requires n <= |t| && LeadingOnes(t, n)
    ensures |Word(t)| == n + |Word(t[n..])| && (IsText(Word(t)) <==> IsText(Word(t[n..])))
    ensures IsText(Word(t)) ==> DigitsIn(Word(t)) == Zeros(n) + DigitsIn(Word(t[n..]))
  {
    hide IsSpace, DigitOf, IsText, DigitsIn, Word, LeadingOnes;
    if n == 0 {
      assert t[0..] == t;
    } else {
      LeadingOnesStep(t, n);
      OneIsZero(t[0]);
      OnesAreZeros(n - 1, t[1..]);
      assert t[1..][n - 1..] == t[n..];
      WordUnfolds(t);
      OneMoreZero(t[0], Word(t[1..]));
      assert Zeros(n) == [0] + Zeros(n - 1);
    }
  }

  lemma {:induction false} SkipToEnd(s: string)
    ensures SkipSpaces(s) == [] <==> AllSpace(s)
  {
    if s != [] && IsSpace(s[0]) {
      SkipToEnd(s[1..]);
      assert s == [s[0]] + s[1..];
    }
  }

  /** Leading zeros, then the digits of the rest: the conversion of the whole word. */
  lemma ConvertOfOnes(n: nat, t: string)
    requires n <= |t| && LeadingOnes(t, n)
    requires IsText(Word(t)) && IsText(Word(t[n..]))
    ensures Convert(DigitsIn(Word(t)), 58, 256) == Zeros(n) + Digits(Value(DigitsIn(Word(t[n..])), 58), 256)
  {
    var rest := DigitsIn(Word(t[n..]));
    OnesAreZeros(n, t);
    assert rest != [] ==> rest[0] != 0 by {
      if rest != [] {
        DigitOfChar(rest[0]);
        assert Word(t[n..])[0] == t[n];
      }
    }
    LeadingZerosOf(n, rest);
    ValueZeros(n, rest, 58);
  }

  method DecodeBase58(str: string) returns (r: Option<seq<nat>>)
    ensures r == Decoded(str)
  {
    hide Convert, Value, Digits, SkipSpaces, Word, IsText, LeadingOnes, AllSpace, AllBelow, Pow, DigitsIn;
    var psz := CString(str);
    var i := SkipFrom(psz, 0);
    assert psz[0..] == psz;
    ghost var t := psz[i..];
    var zeroes := CountOnes(psz, i);
    i := i + zeroes;
    assert psz[i..] == t[zeroes..];
    BufferFits256(|psz| - i);
    var b256 := ZeroBuffer((|psz| - i) * 733 / 1000 + 1);
    var ok, j := FeedWord(psz, i, b256);
    OnesAreZeros(zeroes, t);
    if !ok {
      return None;
    }
    assert psz[j..] == t[|Word(t)|..];
    SkipToEnd(psz[j..]);
    j := SkipFrom(psz, j);
    if j != |psz| {
      return None;
    }
    var it := CountZeros(b256[..]);
    StripZeros(b256[..], 256);
    ConvertOfOnes(zeroes, t);
    assert b256[it..] == b256[..][it..];
    return Some(Zeros(zeroes) + b256[it..]);
  }

  method ZeroBuffer(size: nat) returns (buf: array<nat>)
    ensures fresh(buf) && buf.Length == size && AllBelow(buf[..], 256) && Value(buf[..], 256) == 0
  {
    buf := new nat[size](_ => 0);
    assert buf[..] == Zeros(size) + [];
    ValueZeros(size, [], 256);
  }

  // ---------------------------------------------------------------- round trips

  lemma {:induction false} WordOfText(s: string, tail: string)
    requires IsText(s) && (tail != [] ==> IsSpace(tail[0]))
    ensures Word(s + tail) == s
  {
    if s == [] {
      assert s + tail == tail;
    } else {
      TextHasNoSpace(s[0]);
      assert (s + tail)[1..] == s[1..] + tail;
      WordOfText(s[1..], tail);
    }
  }

  lemma SpaceIsPlain(c: char)
    requires IsSpace(c)
    ensures c != '\0'
  {
  }

  lemma TextHasNoSpace(c: char)
    requires DigitOf(c).Some?
    ensures !IsSpace(c) && c != '\0'
  {
    DigitOfChar(DigitOf(c).value);
  }

  lemma {:induction false} SkipAllSpace(pre: string, t: string)
    requires AllSpace(pre) && (t != [] ==> !IsSpace(t[0]))
    ensures SkipSpaces(pre + t) == t
  {
    if pre == [] {
      assert pre + t == t;
    } else {
      assert (pre + t)[1..] == pre[1..] + t;
      SkipAllSpace(pre[1..], t);
    }
  }

  lemma {:induction false} SkipOnlySpace(s: string)
    requires AllSpace(s)
    ensures SkipSpaces(s) == []
  {
    if s != [] {
      SkipOnlySpace(s[1..]);
    }
  }

  lemma {:induction false} CStringOfPlain(s: string)
    requires '\0' !in s
    ensures CString(s) == s
  {
    if s != [] {
      CStringOfPlain(s[1..]);
    }
  }

  /** A word of the alphabet between any spaces decodes to what the word alone says. */
  lemma DecodedBetweenSpaces(pre: string, word: string, post: string)
    requires AllSpace(pre) && IsText(word) && AllSpace(post)
    ensures Decoded(pre + word + post) == Some(Convert(DigitsIn(word), 58, 256))
  {
    hide Convert, DigitsIn, DigitOf, IsSpace;
    var s := pre + word + post;
    forall i | 0 <= i < |s|
      ensures s[i] != '\0'
    {
      if i < |pre| {
        SpaceIsPlain(pre[i]);
      } else if i < |pre| + |word| {
        TextHasNoSpace(word[i - |pre|]);
      } else {
        SpaceIsPlain(post[i - |pre| - |word|]);
      }
    }
    CStringOfPlain(s);
    if word == [] {
      assert AllSpace(s);
      SkipOnlySpace(s);
    } else {
      TextHasNoSpace(word[0]);
      assert s == pre + (word + post);
      SkipAllSpace(pre, word + post);
      WordOfText(word, post);
      assert (word + post)[|word|..] == post;
    }
  }

  lemma {:induction false} SkippedIsSpace(s: string)
    ensures AllSpace(s[..|s| - |SkipSpaces(s)|])
    ensures SkipSpaces(s) != [] ==> !IsSpace(SkipSpaces(s)[0])
  {
    hide IsSpace, AllSpace, SkipSpaces;
    SkipUnfolds(s);
    if s != [] && IsSpace(s[0]) {
      SkippedIsSpace(s[1..]);
      var n := |s| - |SkipSpaces(s)|;
      assert s[..n] == [s[0]] + s[1..][..n - 1];
      OneMoreSpace(s[0], s[1..][..n - 1]);
    } else {
      NoSpace(s[..0]);
    }
  }

  lemma SkipUnfolds(s: string)
    ensures SkipSpaces(s) == if s != [] && IsSpace(s[0]) then SkipSpaces(s[1..]) else s
  {
  }

  lemma OneMoreSpace(c: char, s: string)
    requires IsSpace(c) && AllSpace(s)
    ensures AllSpace([c] + s)
  {
  }

  lemma NoSpace(s: string)
    requires s == []
    ensures AllSpace(s)
  {
  }

  predicate SpacedWord(c: string, pre: string, word: string, post: string) {
    c == pre + word + post && AllSpace(pre) && IsText(word) && AllSpace(post)
  }

  /** DecodeBase58 accepts exactly the strings that are one word of the alphabet between spaces. */
  lemma DecodedIffSpacedWord(s: string)
    ensures Decoded(s).Some? <==> exists pre, word, post :: SpacedWord(CString(s), pre, word, post)
  {
    var c := CString(s);
    CStringOfPlain(c);
    if Decoded(s).Some? {
      DecodedHasWord(s);
    }
    if pre, word, post :| SpacedWord(c, pre, word, post) {
      DecodedBetweenSpaces(pre, word, post);
      assert Decoded(c) == Decoded(s);
    }
  }

  lemma DecodedHasWord(s: string)
    requires Decoded(s).Some?
    ensures exists pre, word, post :: SpacedWord(CString(s), pre, word, post)
  {
    hide Convert, Word, SkipSpaces, CString;
    var c := CString(s);
    var t := SkipSpaces(c);
    var pre, word := c[..|c| - |t|], Word(t);
    SkippedIsSpace(c);
    assert SpacedWord(c, pre, word, t[|word|..]);
  }

  /** Decoding what was encoded gives back every byte string. */
  lemma DecodeEncode(bytes: seq<Byte>)
    ensures Decoded(Encoded(bytes)) == Some(bytes)
  {
    ConvertBelow(bytes, 256, 58);
    var digits := Convert(bytes, 256, 58);
    TextRoundTrip(digits);
    assert [] + Text(digits) + [] == Text(digits);
    DecodedBetweenSpaces([], Text(digits), []);
    ConvertRoundTrip(bytes, 256, 58);
  }

  /** The word that decoding reads: the string without surrounding spaces. */
  function Stripped(s: string): string {
    Word(SkipSpaces(CString(s)))
  }

  lemma DecodedAreBytes(s: string)
    requires Decoded(s).Some?
    ensures AllBelow(Decoded(s).value, 256)
  {
    ConvertBelow(DigitsIn(Stripped(s)), 58, 256);
  }

  /** What an encoding says: the same number, to base 58, behind one '1' for each leading zero byte. */
  lemma EncodedMeans(bytes: seq<Byte>)
    ensures IsText(Encoded(bytes))
    ensures Value(DigitsIn(Encoded(bytes)), 58) == Value(bytes, 256)
    ensures LeadingZeros(DigitsIn(Encoded(bytes))) == LeadingZeros(bytes)
  {
    ConvertBelow(bytes, 256, 58);
    TextRoundTrip(Convert(bytes, 256, 58));
    var n, v := LeadingZeros(bytes), Value(bytes, 256);
    DigitsShape(v, 58);
    DigitsValue(v, 58);
    LeadingZerosOf(n, Digits(v, 58));
    ValueZeros(n, Digits(v, 58), 58);
  }

  /** Encoding what was decoded gives back every accepted string, stripped of its spaces. */
  lemma EncodeDecode(s: string, bytes: seq<Byte>)
    requires Decoded(s) == Some(bytes)
    ensures Encoded(bytes) == Stripped(s)
  {
    var digits := DigitsIn(Stripped(s));
    ConvertRoundTrip(digits, 58, 256);
    DigitsRoundTrip(Stripped(s));
  }

  // ---------------------------------------------------------------- checksums

  /** A hash of byte strings whose first four bytes serve as checksum. */
  type Hash = seq<Byte> -> seq<Byte>

  ghost predicate IsHash(h: Hash) {
    forall s :: |h(s)| >= 4
  }

  method EncodeBase58Check(h: Hash, bytes: seq<Byte>) returns (s: string)
    requires |h(bytes)| >= 4
    ensures s == Encoded(bytes + h(bytes)[..4])
  {
    s := EncodeBase58(bytes + h(bytes)[..4]);
  }

  /** The payload that DecodeBase58Check returns; `None` is failure with a cleared result. */
  function Checked(h: Hash, s: string): Option<seq<Byte>>
    requires IsHash(h)
  {
    match Decoded(s)
    case None => None
    case Some(v) =>
      DecodedAreBytes(s);
      if |v| < 4 then None
      else
        var payload: seq<Byte> := v[..|v| - 4];
        if h(payload)[..4] == v[|v| - 4..] then Some(payload) else None
  }

  method DecodeBase58Check(h: Hash, s: string) returns (r: Option<seq<Byte>>)
    requires IsHash(h)
    ensures r == Checked(h, s)
  {
    var v := DecodeBase58(s);
    if v.None? || |v.value| < 4 {
      return None;
    }
    DecodedAreBytes(s);
    var payload: seq<Byte> := v.value[..|v.value| - 4];
    if h(payload)[..4] != v.value[|v.value| - 4..] {
      return None;
    }
    return Some(payload);
  }

  /** For any hash, the checksummed forms are inverse to each other: both round trips at once. */
  lemma CheckedIffEncoded(h: Hash, s: string, bytes: seq<Byte>)
    requires IsHash(h)
    ensures Checked(h, Encoded(bytes + h(bytes)[..4])) == Some(bytes)
    ensures Checked(h, s) == Some(bytes) ==> Stripped(s) == Encoded(bytes + h(bytes)[..4])
  {
    hide Encoded, Decoded, Stripped;
    CheckedEncoded(h, bytes);
    if Checked(h, s) == Some(bytes) {
      DecodedAreBytes(s);
      var v: seq<Byte> := Decoded(s).value;
      assert v == v[..|v| - 4] + v[|v| - 4..];
      EncodeDecode(s, v);
    }
  }

  lemma CheckedEncoded(h: Hash, bytes: seq<Byte>)
    requires IsHash(h)
    ensures Checked(h, Encoded(bytes + h(bytes)[..4])) == Some(bytes)
  {
    hide Encoded, Decoded;
    var all: seq<Byte> := bytes + h(bytes)[..4];
    DecodeEncode(all);
    assert all[..|all| - 4] == bytes && all[|all| - 4..] == h(bytes)[..4];
  }
}
