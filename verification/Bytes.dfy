/** Bytes, fixed-width integers and numerals as the file formats and requests spell them. */
module Bytes {
  type Byte = x: int | 0 <= x < 256

  const U32: int := 0x1_0000_0000
  const U64: int := 0x1_0000_0000_0000_0000

  type Word32 = x: int | 0 <= x < U32
  type Word64 = x: int | 0 <= x < U64

  function Zeros(n: nat): (z: seq<Byte>)
    ensures |z| == n && forall i :: 0 <= i < n ==> z[i] == 0
  {
    seq(n, i => 0)
  }

  // ---------------------------------------------------------------- integers in a byte order

  /** The `w` low bytes of `n`, least significant first. */
  function Little(n: nat, w: nat): (s: seq<Byte>)
    ensures |s| == w
  {
    if w == 0 then [] else [n % 256] + Little(n / 256, w - 1)
  }

  function FromLittle(s: seq<Byte>): (n: nat) {
    if s == [] then 0 else s[0] + 256 * FromLittle(s[1..])
  }

  /** The `w` low bytes of `n`, most significant first. */
  function Big(n: nat, w: nat): (s: seq<Byte>)
    ensures |s| == w
  {
    if w == 0 then [] else Big(n / 256, w - 1) + [n % 256]
  }

  function FromBig(s: seq<Byte>): (n: nat) {
    if s == [] then 0 else 256 * FromBig(s[..|s| - 1]) + s[|s| - 1]
  }

  function Pow256(w: nat): (p: nat)
    ensures p > 0
  {
    if w == 0 then 1 else 256 * Pow256(w - 1)
  }

  lemma {:induction false} LittleRoundTrip(n: nat, w: nat)
    requires n < Pow256(w)
    ensures FromLittle(Little(n, w)) == n
    decreases w
  {
    if w > 0 {
      LittleRoundTrip(n / 256, w - 1);
      assert Little(n, w)[1..] == Little(n / 256, w - 1);
    }
  }

  lemma {:induction false} BigRoundTrip(n: nat, w: nat)
    requires n < Pow256(w)
    ensures FromBig(Big(n, w)) == n
    decreases w
  {
    if w > 0 {
      BigRoundTrip(n / 256, w - 1);
      assert Big(n, w)[..w - 1] == Big(n / 256, w - 1);
    }
  }

  lemma {:induction false} FromBigBound(s: seq<Byte>)
    ensures FromBig(s) < Pow256(|s|)
    decreases |s|
  {
    if s != [] { FromBigBound(s[..|s| - 1]); }
  }

  lemma Pow256Words()
    ensures Pow256(2) == 0x1_0000 && Pow256(4) == 0x1_0000_0000 && Pow256(8) == 0x1_0000_0000_0000_0000
  {
    assert Pow256(1) == 256;
    assert Pow256(2) == 0x1_0000;
    assert Pow256(3) == 0x100_0000;
    assert Pow256(4) == 0x1_0000_0000;
    assert Pow256(5) == 0x100_0000_0000;
    assert Pow256(6) == 0x1_0000_0000_0000;
    assert Pow256(7) == 0x100_0000_0000_0000;
  }

  function Big32(n: Word32): (s: seq<Byte>)
    ensures |s| == 4
  {
    Big(n, 4)
  }

  function FromBig32(s: seq<Byte>): (n: Word32)
    requires |s| == 4
  {
    FromBigBound(s);
    Pow256Words();
    FromBig(s)
  }

  lemma Big32RoundTrip(n: Word32)
    ensures FromBig32(Big32(n)) == n
  {
    Pow256Words();
    BigRoundTrip(n, 4);
  }

  function Big64(n: Word64): (s: seq<Byte>)
    ensures |s| == 8
  {
    Big(n, 8)
  }

  function FromBig64(s: seq<Byte>): (n: Word64)
    requires |s| == 8
  {
    FromBigBound(s);
    Pow256Words();
    FromBig(s)
  }

  lemma Big64RoundTrip(n: Word64)
    ensures FromBig64(Big64(n)) == n
  {
    Pow256Words();
    BigRoundTrip(n, 8);
  }

  // ---------------------------------------------------------------- numerals

  /** The ASCII digit of `d`, lower case above 9. */
  function Digit(d: nat): (c: Byte)
    requires d < 16
  {
    if d < 10 then 48 + d else 87 + d
  }

  /** Whether `c` is a digit in base `b`. */
  predicate IsDigit(c: Byte, b: nat) {
    (48 <= c <= 57 && c - 48 < b) || (97 <= c <= 102 && c - 87 < b) || (65 <= c <= 70 && c - 55 < b)
  }

  function DigitValue(c: Byte): nat {
    if 48 <= c <= 57 then c - 48 else if 65 <= c <= 70 then c - 55 else if 97 <= c <= 102 then c - 87 else 0
  }

  /** `n` in base `b`, without leading zeros. */
  function Numeral(n: nat, b: nat): (s: seq<Byte>)
    requires 2 <= b <= 16
    ensures |s| > 0 && forall i :: 0 <= i < |s| ==> IsDigit(s[i], b)
  {
    if n < b then [Digit(n)] else Numeral(n / b, b) + [Digit(n % b)]
  }

  /** The last `w` digits of `n` in base 16, as `%08x` prints a 32-bit value. */
  function HexFixed(n: nat, w: nat): (s: seq<Byte>)
    ensures |s| == w && forall i :: 0 <= i < |s| ==> IsDigit(s[i], 16)
  {
    if w == 0 then [] else HexFixed(n / 16, w - 1) + [Digit(n % 16)]
  }

  /** How many leading digits `s` has. */
  function DigitRun(s: seq<Byte>, b: nat): (n: nat)
    ensures n <= |s| && (forall i :: 0 <= i < n ==> IsDigit(s[i], b)) && (n < |s| ==> !IsDigit(s[n], b))
  {
    if s == [] || !IsDigit(s[0], b) then 0 else 1 + DigitRun(s[1..], b)
  }

  function ValueOf(s: seq<Byte>, b: nat): nat {
    if s == [] then 0 else ValueOf(s[..|s| - 1], b) * b + DigitValue(s[|s| - 1])
  }

  lemma {:induction false} NumeralValue(n: nat, b: nat)
    requires 2 <= b <= 16
    ensures ValueOf(Numeral(n, b), b) == n
    decreases n
  {
    var s := Numeral(n, b);
    if n < b {
      assert s[..0] == [];
    } else {
      QuotientSmaller(n, b);
      NumeralValue(n / b, b);
      assert s[..|s| - 1] == Numeral(n / b, b);
    }
  }

  lemma QuotientSmaller(n: nat, b: nat)
    requires 2 <= b <= n
    ensures n / b < n && n == n / b * b + n % b
  {
  }

  function Pow16(w: nat): (p: nat)
    ensures p > 0
  {
    if w == 0 then 1 else 16 * Pow16(w - 1)
  }

  lemma {:induction false} HexFixedValue(n: nat, w: nat)
    requires n < Pow16(w)
    ensures ValueOf(HexFixed(n, w), 16) == n
    decreases w
  {
    if w > 0 {
      HexFixedValue(n / 16, w - 1);
      var s := HexFixed(n, w);
      assert s[..|s| - 1] == HexFixed(n / 16, w - 1);
    }
  }

  lemma Pow16Eight()
    ensures Pow16(8) == 0x1_0000_0000
  {
    assert Pow16(2) == 256;
    assert Pow16(4) == 0x1_0000;
    assert Pow16(6) == 0x100_0000;
  }

  lemma {:induction false} DigitRunOf(s: seq<Byte>, rest: seq<Byte>, b: nat)
    requires (forall i :: 0 <= i < |s| ==> IsDigit(s[i], b)) && (rest == [] || !IsDigit(rest[0], b))
    ensures DigitRun(s + rest, b) == |s|
    decreases |s|
  {
    if s == [] {
      assert s + rest == rest;
    } else {
      assert (s + rest)[1..] == s[1..] + rest;
      DigitRunOf(s[1..], rest, b);
    }
  }

  // ---------------------------------------------------------------- buffers

  /** `memcpy` of `s` into a buffer. */
  method Put(a: array<Byte>, at: nat, s: seq<Byte>)
    requires at + |s| <= a.Length
    modifies a
    ensures a[..] == old(a[..])[..at] + s + old(a[..])[at + |s|..]
  {
    forall i | 0 <= i < |s| { a[at + i] := s[i]; }
  }

  /** What `memmove` makes of a buffer. */
  function Moved(s: seq<Byte>, to: nat, from: nat, n: nat): (r: seq<Byte>)
    requires to + n <= |s| && from + n <= |s|
    ensures |r| == |s|
  {
    s[..to] + s[from..from + n] + s[to + n..]
  }

  /** `memmove` of `n` bytes within a buffer; the two places may overlap. */
  method Move(a: array<Byte>, to: nat, from: nat, n: nat)
    requires to + n <= a.Length && from + n <= a.Length
    modifies a
    ensures a[..] == Moved(old(a[..]), to, from, n)
  {
    forall i | 0 <= i < n { a[to + i] := a[from + i]; }
  }

  lemma Splice(a: seq<Byte>, b: seq<Byte>, c: seq<Byte>, e: seq<Byte>)
    requires |b| == |e|
    ensures (a + b + c)[..|a|] + e + (a + b + c)[|a| + |e|..] == a + e + c
  {
  }

  // ---------------------------------------------------------------- strings and alignment

  function Align4(n: nat): (r: nat)
    ensures n <= r < n + 4 && r % 4 == 0
  {
    (n + 3) / 4 * 4
  }

  predicate NoNul(s: seq<Byte>) {
    forall i :: 0 <= i < |s| ==> s[i] != 0
  }

  function Padded(s: seq<Byte>, n: nat): (r: seq<Byte>)
    requires |s| <= n
    ensures |r| == Align4(n)
  {
    s + Zeros(Align4(n) - |s|)
  }

  /** The first NUL at or after `off`, or the end of the block. */
  function NulAt(st: seq<Byte>, off: nat): (z: nat)
    requires off <= |st|
    ensures off <= z <= |st| && (forall i :: off <= i < z ==> st[i] != 0) && (z < |st| ==> st[z] == 0)
    decreases |st| - off
  {
    if off == |st| || st[off] == 0 then off else NulAt(st, off + 1)
  }

  lemma PrefixSlice(s: seq<Byte>, top: nat, lo: nat, hi: nat)
    requires lo <= hi <= top <= |s|
    ensures s[..top][lo..hi] == s[lo..hi]
  {
  }

  lemma Assoc(pre: seq<Byte>, x: seq<Byte>, y: seq<Byte>, post: seq<Byte>)
    ensures pre + (x + y) + post == pre + x + (y + post) == (pre + x) + y + post
  {
  }

  lemma Middle(a: seq<Byte>, b: seq<Byte>, c: seq<Byte>)
    ensures (a + b + c)[|a|..|a| + |b|] == b
  {
  }

  lemma ConcatAssoc(a: seq<Byte>, b: seq<Byte>, c: seq<Byte>)
    ensures (a + b) + c == a + (b + c)
  {
  }

  lemma SumOfFours(x: nat, y: nat)
    requires x % 4 == 0 && y % 4 == 0
    ensures (x + y) % 4 == 0
  {
  }

  lemma AlignedSum(a: nat, n: nat)
    requires a % 4 == 0
    ensures Align4(a + n) == a + Align4(n)
  {
  }
}
