/** The mutable range set of lib/ranges.c: an array edited in place. */
module RangeSets {
  import opened Bytes
  import opened Errno
  import opened Ranges
  import opened Rounding

  /** Opening slot `i + 1` and rewriting slot `i` puts two ranges in place of one. */
  lemma SplitShape(s: seq<Range>, i: nat, a: Range, b: Range)
    requires i < |s|
    ensures var t := s[..i + 1] + [b] + s[i + 1..];
            t[..i] + [a] + t[i + 1..] == s[..i] + [a, b] + s[i + 1..]
  {
    var t := s[..i + 1] + [b] + s[i + 1..];
    assert t[..i] == s[..i];
    assert t[i + 1..] == [b] + s[i + 1..];
  }

  lemma CopyStep(c: seq<Range>, d: seq<Range>, s: seq<Range>, i: nat)
    requires i < |s| && SameAddresses(c, s[..i]) && IsUnion(d, c, s[i].base, s[i].End())
    ensures SameAddresses(d, s[..i + 1])
  {
    forall a ensures Covers(d, a) <==> Covers(s[..i + 1], a) { CoversPrefix(s, i, a); }
  }

  /** `struct rangeset`: `r` is the allocation, `count` the slots in use, `r.Length` the capacity. */
  class RangeSet {
    var r: array<Range>
    var count: nat

    ghost predicate Bounded()
      reads this
    {
      count <= r.Length
    }

    ghost predicate Valid()
      reads this, r
    {
      Bounded() && Canonical(r[..count])
    }

    ghost function Contents(): (s: seq<Range>)
      requires Bounded()
      reads this, r
    {
      r[..count]
    }

    constructor ()
      ensures Valid() && Contents() == [] && fresh(r)
    {
      r := new Range[0];
      count := 0;
    }

    /** Doubles the allocation, eight slots at first; `realloc` may refuse. */
    method Grow() returns (granted: bool)
      requires Bounded() && count == r.Length
      modifies this`r
      ensures granted ==> fresh(r) && count < r.Length && Contents() == old(Contents())
      ensures !granted ==> r == old(r)
    {
      granted := *;
      if granted {
        var was := r[..];
        var grown := new Range[if r.Length != 0 then r.Length * 2 else 8](
          i => if 0 <= i < |was| then was[i] else Range(0, 0));
        assert grown[..count] == was;
        r := grown;
      }
    }

    /** Opens slot `at`; the only failure is a refused `realloc` when every slot is in use. */
    method Insert(at: nat, base: Word64, size: Word64) returns (ret: int)
      requires Bounded() && at <= count
      modifies this, r
      ensures Bounded() && (r == old(r) || fresh(r))
      ensures ret == 0 || (ret == -ENOMEM && old(count == r.Length))
      ensures ret == 0 ==> Contents() == old(Contents())[..at] + [Range(base, size)] + old(Contents())[at..]
      ensures ret != 0 ==> Contents() == old(Contents())
    {
      if count == r.Length {
        var granted := Grow();
        if !granted {
          return -ENOMEM;
        }
      }
      OpenSlot(at, Range(base, size));
      return 0;
    }

    method OpenSlot(at: nat, x: Range)
      requires Bounded() && at <= count < r.Length
      modifies this`count, r
      ensures Bounded() && r == old(r) && count == old(count) + 1
      ensures Contents() == old(Contents())[..at] + [x] + old(Contents())[at..]
    {
      ghost var before := r[..count];
      forall k | at < k <= count { r[k] := r[k - 1]; }
      r[at] := x;
      count := count + 1;
      assert forall k :: 0 <= k < at ==> r[k] == before[k];
      assert forall k :: at < k < count ==> r[k] == before[k - 1];
      assert r[..count] == before[..at] + [x] + before[at..];
    }

    /** Closes slot `at`. */
    method Remove(at: nat)
      requires Bounded() && at < count
      modifies this`count, r
      ensures Bounded() && r == old(r) && count == old(count) - 1
      ensures Contents() == old(Contents())[..at] + old(Contents())[at + 1..]
    {
      ghost var before := r[..count];
      forall k | at <= k < count - 1 { r[k] := r[k + 1]; }
      count := count - 1;
      assert r[..count] == before[..at] + before[at + 1..];
    }

    /** Rewrites slot `at` in place. */
    method Replace(at: nat, base: Word64, size: Word64)
      requires Bounded() && at < count
      modifies r
      ensures Contents() == old(Contents())[..at] + [Range(base, size)] + old(Contents())[at + 1..]
    {
      ghost var before := r[..count];
      r[at] := Range(base, size);
      assert r[..count] == before[..at] + [Range(base, size)] + before[at + 1..];
    }

    /** Removes every range touching [lo, hi) from slot `i` on, growing [lo, hi) over it. */
    method Swallow(i: nat, base: Word64, end: Word64) returns (lo: Word64, hi: Word64, ghost k: nat)
      requires Valid() && i <= count && Swallowing(Contents(), Contents(), i, 0, base, end, base, end)
      modifies this`count, r
      ensures Bounded() && i <= count && r == old(r)
      ensures Swallowing(old(Contents()), Contents(), i, k, base, end, lo, hi)
      ensures i < count ==> hi < r[i].base
      ensures if k == 0 then Contents() == old(Contents()) else count < r.Length
    {
      hide Swallowing, Canonical;
      ghost var s := Contents();
      lo, hi, k := base, end, 0;
      while i < count && r[i].base <= hi
        invariant Bounded() && i <= count && r == old(r)
        invariant Swallowing(s, Contents(), i, k, base, end, lo, hi)
        invariant if k == 0 then Contents() == s else count < r.Length
        decreases count - i
      {
        var x := r[i];
        SwallowStep(s, Contents(), i, k, base, end, lo, hi);
        if x.base < lo {
          lo := x.base;
        }
        if x.End() > hi {
          hi := x.End();
        }
        Remove(i);
        k := k + 1;
      }
    }

    /** Set union with one range. On failure the set is as it was, whatever was tried. */
    method Add(base: Word64, size: Word64) returns (ret: int)
      requires Valid()
      modifies this, r
      ensures Valid() && (r == old(r) || fresh(r))
      ensures ret in {0, -EINVAL, -ENOMEM}
      ensures ret == -EINVAL <==> size == 0 || base + size >= U64
      ensures ret == -ENOMEM ==> old(count == r.Length)
      ensures ret == 0 ==> IsUnion(Contents(), old(Contents()), base, base + size)
      ensures ret != 0 ==> Contents() == old(Contents())
    {
      hide Covers, IsUnion, Swallowing, Canonical;
      ghost var s := Contents();
      if size == 0 || Plus(base, size) < base {
        return -EINVAL;
      }
      var i := 0;
      while i < count && r[i].End() < base
        invariant i <= count
        invariant forall j :: 0 <= j < i ==> s[j].End() < base
      {
        i := i + 1;
      }
      StartSwallowing(s, i, base, base + size);
      var lo, hi, k := Swallow(i, base, base + size);
      Swallowed(s, Contents(), i, k, base, base + size, lo, hi);
      ret := Insert(i, lo, hi - lo);
    }

    /** Cuts [base, end) out of the middle of range `i`. */
    method SplitAt(i: nat, base: Word64, end: Word64) returns (ret: int)
      requires Valid() && i < count && r[i].base < base < end < r[i].End()
      modifies this, r
      ensures Bounded() && (r == old(r) || fresh(r)) && ret in {0, -ENOMEM}
      ensures ret == 0 ==> Canonical(Contents()) && IsDifference(Contents(), old(Contents()), base, end)
      ensures ret != 0 ==> Contents() == old(Contents())
    {
      hide Covers, IsDifference;
      ghost var s := Contents();
      var x := r[i];
      CanonicalBounds(s, i);
      hide Canonical;
      ret := Insert(i + 1, end, x.End() - end);
      if ret == 0 {
        Replace(i, x.base, base - x.base);
        SplitShape(s, i, Range(x.base, base - x.base), Range(end, x.End() - end));
        SplitIsDifference(s, i, base, end, Contents());
      }
    }

    /** One round of subtraction: what is left of range `i`, and the next slot to look at. */
    method TrimAt(i: nat, base: Word64, end: Word64, ghost s: seq<Range>, ghost j: nat)
      returns (ret: int, next: nat, split: bool)
      requires Bounded() && i < count && base < end && Canonical(s)
      requires Trimming(s, Contents(), i, j, base, end)
      modifies this, r
      ensures Bounded() && (r == old(r) || fresh(r)) && (split || r == old(r))
      ensures split ==> ret in {0, -ENOMEM} && old(Contents()) == s && j < |s| && s[j].base < base && end < s[j].End()
      ensures split && ret == 0 ==> Canonical(Contents()) && IsDifference(Contents(), s, base, end)
      ensures split && ret != 0 ==> Contents() == s
      ensures !split ==> ret == 0 && i <= next <= count && Trimming(s, Contents(), next, j + 1, base, end)
      ensures !split ==> count - next < old(count) - i
    {
      hide Covers, IsDifference, Trimming, Canonical;
      ghost var c := Contents();
      var x := r[i];
      var rend := x.End();
      ret, next, split := 0, i + 1, false;
      AtRange(s, c, i, j, base, end);
      if rend <= base || x.base >= end {
        TrimStep(s, c, i, j, base, end, [x]);
        assert c == c[..i] + [x] + c[i + 1..];
      } else if x.base < base && rend > end {
        NoEditBeforeSplit(s, c, i, j, base, end);
        split := true;
        ret := SplitAt(i, base, end);
      } else if x.base < base {
        Replace(i, x.base, base - x.base);
        TrimStep(s, c, i, j, base, end, [Range(x.base, base - x.base)]);
      } else if rend > end {
        Replace(i, end, rend - end);
        TrimStep(s, c, i, j, base, end, [Range(end, rend - end)]);
      } else {
        Remove(i);
        assert Contents() == c[..i] + [] + c[i + 1..];
        TrimStep(s, c, i, j, base, end, []);
        next := i;
      }
    }

    /** Set difference with one range; the one step that can fail is a split, and it is the only edit then. */
    method Subtract(base: Word64, size: Word64) returns (ret: int)
      requires Valid()
      modifies this, r
      ensures Valid() && (r == old(r) || fresh(r))
      ensures ret in {0, -EINVAL, -ENOMEM}
      ensures ret == -EINVAL <==> size == 0 || base + size >= U64
      ensures ret == -ENOMEM ==> exists x :: x in old(Contents()) && x.base < base && base + size < x.End()
      ensures ret == 0 ==> IsDifference(Contents(), old(Contents()), base, base + size)
      ensures ret != 0 ==> Contents() == old(Contents())
    {
      hide Covers, IsDifference, Trimming, Canonical;
      ghost var s := Contents();
      if size == 0 || Plus(base, size) < base {
        return -EINVAL;
      }
      var end: Word64 := base + size;
      var i: nat := 0;
      ghost var j := 0;
      StartTrimming(s, base, end);
      while i < count
        invariant Bounded() && i <= count && r == old(r) && Trimming(s, Contents(), i, j, base, end)
        decreases count - i
      {
        var next, split;
        ret, next, split := TrimAt(i, base, end, s, j);
        if split {
          assert s[j] in s;
          return;
        }
        i, j := next, j + 1;
      }
      Trimmed(s, Contents(), i, j, base, end);
      return 0;
    }

    /** Set difference with every range of `minus`. */
    method SubtractSet(minus: RangeSet) returns (ret: int)
      requires Valid() && minus.Valid() && minus != this && minus.r != r
      modifies this, r
      ensures Valid() && (r == old(r) || fresh(r)) && ret in {0, -ENOMEM}
      ensures ret == 0 ==>
                forall a :: Covers(Contents(), a) <==>
                            old(Covers(Contents(), a)) && !old(Covers(minus.Contents(), a))
    {
      hide Covers, Canonical;
      ghost var s, m := Contents(), minus.Contents();
      NothingCovered(m[..0]);
      var i := 0;
      while i < minus.count
        invariant minus.Valid() && minus.Contents() == m && minus.r != r && i <= |m|
        invariant Valid() && (r == old(r) || fresh(r))
        invariant forall a :: Covers(Contents(), a) <==> Covers(s, a) && !Covers(m[..i], a)
      {
        CanonicalBounds(m, i);
        ret := Subtract(minus.r[i].base, minus.r[i].size);
        if ret != 0 {
          return;
        }
        forall a ensures Covers(m[..i + 1], a) <==> Covers(m[..i], a) || m[i].Has(a) { CoversPrefix(m, i, a); }
        i := i + 1;
      }
      assert m[..i] == m;
      return 0;
    }

    /** Empties the set and adds the ranges of `src` one by one: the very same ranges come out. */
    method Copy(src: RangeSet) returns (ret: int)
      requires Valid() && src.Valid() && src != this
      modifies this
      ensures Valid() && fresh(r) && ret in {0, -ENOMEM}
      ensures ret == 0 ==> Contents() == old(src.Contents())
    {
      hide Covers, Canonical;
      ghost var s := src.Contents();
      r := new Range[0];
      count := 0;
      NothingCovered(Contents());
      NothingCovered(s[..0]);
      var i := 0;
      while i < src.count
        invariant src.Valid() && src.Contents() == s && i <= |s|
        invariant Valid() && fresh(r) && SameAddresses(Contents(), s[..i])
      {
        CanonicalBounds(s, i);
        ghost var c := Contents();
        ret := Add(src.r[i].base, src.r[i].size);
        if ret != 0 {
          return;
        }
        CopyStep(c, Contents(), s, i);
        i := i + 1;
      }
      assert s[..i] == s;
      CanonicalUnique(Contents(), s);
      return 0;
    }

    /** Adds to this set what rounding each range of `src` inward to `block` leaves. */
    method AddAligned(src: RangeSet, block: Word64) returns (ret: int)
      requires Valid() && src.Valid() && src != this && src.r != r
      modifies this, r
      ensures Valid() && (r == old(r) || fresh(r)) && ret in {0, -EINVAL, -ENOMEM}
      ensures ret == -EINVAL <==> block == 0
      ensures ret == 0 ==>
                forall a :: Covers(Contents(), a) <==>
                            old(Covers(Contents(), a)) || old(Rounded(src.Contents(), block, a))
    {
      hide Covers, Canonical;
      ghost var s, own := src.Contents(), Contents();
      if block == 0 {
        return -EINVAL;
      }
      NothingRounded(s[..0], block);
      var i := 0;
      while i < src.count
        invariant src.Valid() && src.Contents() == s && src.r != r && i <= |s|
        invariant Valid() && (r == old(r) || fresh(r))
        invariant forall a :: Covers(Contents(), a) <==> Covers(own, a) || Rounded(s[..i], block, a)
      {
        CanonicalBounds(s, i);
        ghost var c := Contents();
        var base, end := RoundUp(src.r[i].base, block), RoundDown(src.r[i].End(), block);
        if end > base {
          ret := Add(base, end - base);
          if ret != 0 {
            return;
          }
        }
        forall a ensures Covers(Contents(), a) <==> Covers(own, a) || Rounded(s[..i + 1], block, a) {
          RoundedPrefix(s, i, block, a);
          assert Covers(Contents(), a) <==> Covers(c, a) || base <= a < end;
        }
        i := i + 1;
      }
      assert s[..i] == s;
      return 0;
    }

    /** Whether some single range holds [base, base + size), the end computed modulo 2^64. */
    method Contains(base: Word64, size: Word64) returns (b: bool)
      requires Valid()
      ensures b <==> exists x :: x in Contents() && x.base <= base && Plus(base, size) <= x.End()
      ensures base + size < U64 && size > 0 ==> (b <==> AllCovered(Contents(), base, base + size))
    {
      hide Covers, Canonical, AllCovered;
      ghost var s := Contents();
      b := false;
      var i := 0;
      while i < count && !b
        invariant i <= count
        invariant b <==> exists j :: 0 <= j < i && s[j].base <= base && Plus(base, size) <= s[j].End()
      {
        b := r[i].base <= base && Plus(base, size) <= r[i].End();
        i := i + 1;
      }
      assert b ==> exists x :: x in s && x.base <= base && Plus(base, size) <= x.End();
      if base + size < U64 && size > 0 { InsideOneRange(s, base, base + size); }
    }

    /** The 64-bit sum of the sizes is the number of addresses: it never wraps. */
    method Total() returns (total: Word64)
      requires Valid()
      ensures total == |Addresses(Contents())|
    {
      hide Covers, Addresses, Canonical;
      ghost var s := Contents();
      total := 0;
      var i := 0;
      while i < count
        invariant i <= count && total == SizeSum(s[..i])
      {
        SizeSumPrefix(s, i);
        total := Plus(total, r[i].size);
        i := i + 1;
      }
      assert s[..i] == s;
      SizeSumCounts(s);
    }
  }
}
