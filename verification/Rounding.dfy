/** Rounding address ranges inward to whole blocks (`rangeset_align` of lib/ranges.c). */
module Rounding {
  import opened Bytes
  import opened Ranges

  /** `(x + block - 1) / block * block` in `uint64_t`: the sum may wrap. */
  function RoundUp(x: Word64, block: Word64): Word64
    requires block > 0
  {
    MultipleBelow(Plus(x, block - 1), block);
    Plus(x, block - 1) / block * block
  }

  function RoundDown(x: Word64, block: Word64): Word64
    requires block > 0
  {
    MultipleBelow(x, block);
    x / block * block
  }

  lemma MultipleBelow(x: int, d: int)
    requires 0 <= x && 0 < d
    ensures 0 <= x / d * d <= x < x / d * d + d
  {
    assert x == x / d * d + x % d;
    assert 0 <= x / d;
    MulNonNeg(x / d, d);
  }

  lemma MulNonNeg(x: int, y: int)
    requires 0 <= x && 0 <= y
    ensures 0 <= x * y
  {
  }

  /** What the rounding loop adds: `a` lies between the rounded ends of some range. */
  ghost predicate Rounded(s: seq<Range>, block: Word64, a: int)
    requires block > 0
  {
    exists i :: 0 <= i < |s| && InRounded(s[i], block, a)
  }

  ghost predicate InRounded(r: Range, block: Word64, a: int)
    requires block > 0
  {
    r.End() < U64 && RoundUp(r.base, block) <= a < RoundDown(r.End(), block)
  }

  lemma NothingRounded(s: seq<Range>, block: Word64)
    requires s == [] && block > 0
    ensures forall a :: !Rounded(s, block, a)
  {
  }

  lemma RoundedPrefix(s: seq<Range>, i: int, block: Word64, a: int)
    requires 0 <= i < |s| && block > 0
    ensures Rounded(s[..i + 1], block, a) <==> Rounded(s[..i], block, a) || InRounded(s[i], block, a)
  {
    if Rounded(s[..i], block, a) {
      var j :| 0 <= j < i && InRounded(s[..i][j], block, a);
      assert s[..i + 1][j] == s[..i][j];
    }
    if InRounded(s[i], block, a) { assert s[..i + 1][i] == s[i]; }
  }

  // ---------------------------------------------------------------- what it means

  /** The block holding `a` lies wholly in the set. */
  ghost predicate InWholeBlock(s: seq<Range>, block: Word64, a: int)
    requires block > 0
  {
    0 <= a && AllCovered(s, a / block * block, a / block * block + block)
  }

  lemma AtMostQuotient(q: int, x: int, d: int)
    requires 0 < d
    ensures q <= x / d <==> q * d <= x
  {
    assert x == x / d * d + x % d;
    if q <= x / d { MulMono(q, x / d, d); }
    if q > x / d { MulMono(x / d + 1, q, d); assert (x / d + 1) * d == x / d * d + d; }
  }

  lemma MulMono(p: int, q: int, d: int)
    requires p <= q && 0 <= d
    ensures p * d <= q * d
  {
    MulNonNeg(q - p, d);
    assert (q - p) * d == q * d - p * d;
  }

  lemma AtLeastCeiling(q: int, x: int, d: int)
    requires 0 < d
    ensures (x + d - 1) / d <= q <==> x <= q * d
  {
    AtMostQuotient(q + 1, x + d - 1, d);
    assert (q + 1) * d == q * d + d;
  }

  /** When the round-up does not wrap, the rounded range is the union of the blocks inside the range. */
  lemma RoundedIsBlocks(r: Range, block: Word64, a: int)
    requires block > 0 && r.End() < U64 && r.base + block - 1 < U64 && 0 <= a
    ensures InRounded(r, block, a) <==> r.base <= a / block * block && a / block * block + block <= r.End()
  {
    BlocksBetween(r.base, r.End(), block, a);
  }

  lemma BlocksBetween(base: int, end: int, d: int, a: int)
    requires d > 0
    ensures (base + d - 1) / d * d <= a < end / d * d <==> base <= a / d * d && a / d * d + d <= end
  {
    var q, up, down := a / d, (base + d - 1) / d, end / d;
    AtMostQuotient(up, a, d);
    AtMostQuotient(down, a, d);
    AtLeastCeiling(q, base, d);
    AtMostQuotient(q + 1, end, d);
    assert (q + 1) * d == q * d + d;
    Sandwich(up, down, q, up * d, down * d, q * d, base, end, d, a);
  }

  lemma Sandwich(up: int, down: int, q: int, upd: int, downd: int, qd: int, base: int, end: int, d: int, a: int)
    requires (up <= q <==> upd <= a) && (down <= q <==> downd <= a)
    requires (up <= q <==> base <= qd) && (q + 1 <= down <==> qd + d <= end)
    ensures upd <= a < downd <==> base <= qd && qd + d <= end
  {
  }

  /** A round-up that wraps yields 0; no block fits inside such a range. */
  lemma WrappedRoundUp(r: Range, block: Word64, b: int)
    requires block > 0 && r.End() < U64 && U64 <= r.base + block - 1
    ensures RoundUp(r.base, block) == 0
    ensures !(r.base <= b && b + block <= r.End())
  {
    SmallQuotient(Plus(r.base, block - 1), block);
  }

  lemma SmallQuotient(x: int, d: int)
    requires 0 <= x < d
    ensures x / d == 0 && x / d * d == 0
  {
  }

  lemma BlockOfMultiple(a: int, n: int, d: int)
    requires 0 < d && 0 <= a < n / d * d
    ensures a / d * d + d <= n / d * d
  {
    AtMostQuotient(n / d, a, d);
    MulMono(a / d + 1, n / d, d);
    assert (a / d + 1) * d == a / d * d + d;
  }

  /**
   * Exactly when rounding gives the whole blocks of the set and nothing else: no round-up
   * wraps, or, where one does, everything from address 0 to the last block boundary below
   * the end of that range is in the set anyway.
   */
  ghost predicate RoundingSafe(s: seq<Range>, block: Word64)
    requires block > 0 && Canonical(s)
  {
    forall i :: 0 <= i < |s| && U64 <= s[i].base + block - 1 ==> AllCovered(s, 0, RoundDown(s[i].End(), block))
  }

  /** Rounding is exact on the ranges whose round-up does not wrap. */
  lemma BlocksAreRounded(s: seq<Range>, block: Word64, a: int)
    requires Canonical(s) && block > 0 && InWholeBlock(s, block, a)
    ensures Rounded(s, block, a)
  {
    var b := a / block * block;
    InsideOneRange(s, b, b + block);
    var x :| x in s && x.base <= b && b + block <= x.End();
    var i :| 0 <= i < |s| && s[i] == x;
    CanonicalBounds(s, i);
    if U64 <= x.base + block - 1 { WrappedRoundUp(x, block, b); assert false; }
    RoundedIsBlocks(x, block, a);
    assert InRounded(s[i], block, a);
  }

  lemma RoundedAreBlocks(s: seq<Range>, block: Word64, a: int)
    requires Canonical(s) && block > 0 && RoundingSafe(s, block) && Rounded(s, block, a)
    ensures InWholeBlock(s, block, a)
  {
    var i :| 0 <= i < |s| && InRounded(s[i], block, a);
    var b := a / block * block;
    assert 0 <= RoundUp(s[i].base, block) <= a;
    if s[i].base + block - 1 < U64 {
      RoundedIsBlocks(s[i], block, a);
      assert s[i] in s;
      InsideOneRange(s, b, b + block);
    } else {
      BlockOfMultiple(a, s[i].End(), block);
      MultipleBelow(a, block);
      assert AllCovered(s, 0, RoundDown(s[i].End(), block));
    }
  }

  /** `rangeset_align` yields precisely the blocks wholly inside the set if and only if `RoundingSafe`. */
  lemma RoundingExact(s: seq<Range>, block: Word64)
    requires Canonical(s) && block > 0
    ensures RoundingSafe(s, block) <==> forall a :: Rounded(s, block, a) <==> InWholeBlock(s, block, a)
  {
    if RoundingSafe(s, block) {
      forall a ensures Rounded(s, block, a) <==> InWholeBlock(s, block, a) {
        if Rounded(s, block, a) { RoundedAreBlocks(s, block, a); }
        if InWholeBlock(s, block, a) { BlocksAreRounded(s, block, a); }
      }
    }
    if forall a :: Rounded(s, block, a) <==> InWholeBlock(s, block, a) {
      forall i | 0 <= i < |s| && U64 <= s[i].base + block - 1
        ensures AllCovered(s, 0, RoundDown(s[i].End(), block))
      {
        WrappedRoundUp(s[i], block, 0);
        forall a | 0 <= a < RoundDown(s[i].End(), block) ensures Covers(s, a) {
          assert InRounded(s[i], block, a);
          assert InWholeBlock(s, block, a);
          MultipleBelow(a, block);
        }
      }
    }
  }

  /** Under that very condition, and no other, rounding adds nothing from outside the set. */
  lemma RoundingInside(s: seq<Range>, block: Word64)
    requires Canonical(s) && block > 0
    ensures RoundingSafe(s, block) <==> forall a :: Rounded(s, block, a) ==> Covers(s, a)
  {
    if RoundingSafe(s, block) {
      forall a | Rounded(s, block, a) ensures Covers(s, a) {
        RoundedAreBlocks(s, block, a);
        MultipleBelow(a, block);
      }
    }
    if forall a :: Rounded(s, block, a) ==> Covers(s, a) {
      forall i | 0 <= i < |s| && U64 <= s[i].base + block - 1
        ensures AllCovered(s, 0, RoundDown(s[i].End(), block))
      {
        WrappedRoundUp(s[i], block, 0);
        forall a | 0 <= a < RoundDown(s[i].End(), block) ensures Covers(s, a) { assert InRounded(s[i], block, a); }
      }
    }
  }

  /** A canonical set whose last range lies more than a block below 2^64 is always safe. */
  lemma RoundingSafeBelowTop(s: seq<Range>, block: Word64)
    requires Canonical(s) && block > 0 && (forall i :: 0 <= i < |s| ==> s[i].base + block <= U64)
    ensures forall a :: Rounded(s, block, a) <==> InWholeBlock(s, block, a)
  {
    RoundingExact(s, block);
  }

  /** A wrapping round-up does go wrong: rounding one range near the top adds addresses outside it. */
  lemma RoundingWrapsNearTop()
    ensures var s := [Range(U64 - 5, 3)];
            Canonical(s) && !RoundingSafe(s, 8) && Rounded(s, 8, 0) && !Covers(s, 0)
  {
    var s := [Range(U64 - 5, 3)];
    assert s[0].End() == U64 - 2;
    assert RoundUp(U64 - 5, 8) == 0;
    assert RoundDown(U64 - 2, 8) == U64 - 8;
    assert InRounded(s[0], 8, 0);
    assert !Covers(s, 0);
  }
}
