/** Sets of 64-bit physical addresses held as sorted arrays of ranges (lib/ranges.c). */
module Ranges {
  import opened Bytes

  /** C addition of two `uint64_t`. */
  function Plus(x: Word64, y: Word64): Word64 {
    if x + y < U64 then x + y else x + y - U64
  }

  datatype Range = Range(base: Word64, size: Word64) {
    /** One past the last address. The source computes it modulo 2^64; in a canonical set it never wraps. */
    function End(): int { base + size }

    ghost predicate Has(a: int) { base <= a < base + size }
  }

  // ---------------------------------------------------------------- sets as sequences

  /** Address `a` lies in one of the ranges. */
  ghost predicate Covers(s: seq<Range>, a: int) {
    exists i :: 0 <= i < |s| && s[i].Has(a)
  }

  /** Sorted, non-overlapping, non-adjacent, non-empty ranges that do not wrap. */
  ghost predicate Canonical(s: seq<Range>) {
    && (forall i :: 0 <= i < |s| ==> 0 < s[i].size && s[i].End() < U64)
    && (forall i, j :: 0 <= i < j < |s| ==> s[i].End() < s[j].base)
  }

  /** The two sequences denote the same set of addresses. */
  ghost predicate SameAddresses(s: seq<Range>, t: seq<Range>) {
    forall a :: Covers(s, a) <==> Covers(t, a)
  }

  /** `t` denotes the addresses of `s` and those of [base, end). */
  ghost predicate IsUnion(t: seq<Range>, s: seq<Range>, base: int, end: int) {
    forall a :: Covers(t, a) <==> Covers(s, a) || base <= a < end
  }

  /** `t` denotes the addresses of `s` outside [base, end). */
  ghost predicate IsDifference(t: seq<Range>, s: seq<Range>, base: int, end: int) {
    forall a :: Covers(t, a) <==> Covers(s, a) && !(base <= a < end)
  }

  lemma CoversConcat(s: seq<Range>, t: seq<Range>, a: int)
    ensures Covers(s + t, a) <==> Covers(s, a) || Covers(t, a)
  {
    if Covers(s, a) {
      var i :| 0 <= i < |s| && s[i].Has(a);
      assert (s + t)[i].Has(a);
    }
    if Covers(t, a) {
      var i :| 0 <= i < |t| && t[i].Has(a);
      assert (s + t)[|s| + i].Has(a);
    }
  }

  lemma CoversSingle(r: Range, a: int)
    ensures Covers([r], a) <==> r.Has(a)
  {
    if r.Has(a) { assert [r][0].Has(a); }
  }

  /** A covered address of a canonical set is never before the first range. */
  lemma FirstIsLeast(s: seq<Range>, a: int)
    requires Canonical(s) && s != [] && Covers(s, a)
    ensures s[0].base <= a
    ensures a < s[0].End() || Covers(s[1..], a)
  {
    var i :| 0 <= i < |s| && s[i].Has(a);
    if i > 0 {
      assert s[0].End() < s[i].base;
      assert s[1..][i - 1].Has(a);
    }
  }

  /** Nothing is covered right after the first range: canonical ranges are never adjacent. */
  lemma GapAfterFirst(s: seq<Range>)
    requires Canonical(s) && s != []
    ensures Covers(s, s[0].base) && Covers(s, s[0].End() - 1) && !Covers(s, s[0].End())
  {
    assert s[0].Has(s[0].base) && s[0].Has(s[0].End() - 1);
  }

  lemma FirstEndsAtGap(s: seq<Range>, t: seq<Range>)
    requires Canonical(s) && Canonical(t) && SameAddresses(s, t) && s != [] && t != []
    requires s[0].base == t[0].base
    ensures t[0].End() <= s[0].End()
  {
    GapAfterFirst(s);
    assert !t[0].Has(s[0].End()) by { assert !Covers(t, s[0].End()); }
  }

  lemma SameFirst(s: seq<Range>, t: seq<Range>)
    requires Canonical(s) && Canonical(t) && SameAddresses(s, t) && s != []
    ensures t != [] && s[0] == t[0]
  {
    GapAfterFirst(s);
    assert Covers(t, s[0].base);
    GapAfterFirst(t);
    FirstIsLeast(t, s[0].base);
    FirstIsLeast(s, t[0].base);
    FirstEndsAtGap(s, t);
    FirstEndsAtGap(t, s);
  }

  /**
   * The canonical form of an address set is unique: two canonical sequences that
   * denote the same addresses are the same sequence.
   */
  lemma {:induction false} CanonicalUnique(s: seq<Range>, t: seq<Range>)
    requires Canonical(s) && Canonical(t) && SameAddresses(s, t)
    ensures s == t
    decreases |s|
  {
    if s == [] {
      if t != [] { SameFirst(t, s); }
    } else {
      hide Covers;
      SameFirst(s, t);
      assert SameAddresses(s[1..], t[1..]) by {
        forall a ensures Covers(s[1..], a) <==> Covers(t[1..], a) {
          TailCovers(s, a);
          TailCovers(t, a);
        }
      }
      CanonicalUnique(s[1..], t[1..]);
      assert s == [s[0]] + s[1..] && t == [t[0]] + t[1..];
    }
  }

  /** Two additions give the same set, range for range, in either order. */
  lemma AddsCommute(s: seq<Range>, first: seq<Range>, both: seq<Range>, other: seq<Range>, swapped: seq<Range>,
                    x: Range, y: Range)
    requires IsUnion(first, s, x.base, x.End()) && IsUnion(both, first, y.base, y.End()) && Canonical(both)
    requires IsUnion(other, s, y.base, y.End()) && IsUnion(swapped, other, x.base, x.End()) && Canonical(swapped)
    ensures both == swapped
  {
    hide Canonical, Covers;
    CanonicalUnique(both, swapped);
  }

  lemma TailCovers(s: seq<Range>, a: int)
    requires Canonical(s) && s != []
    ensures Covers(s[1..], a) <==> Covers(s, a) && !s[0].Has(a)
  {
    if Covers(s[1..], a) {
      var i :| 0 <= i < |s[1..]| && s[1..][i].Has(a);
      assert s[i + 1].Has(a);
    }
    if Covers(s, a) && !s[0].Has(a) {
      FirstIsLeast(s, a);
    }
  }

  // ---------------------------------------------------------------- steps of the two loops

  /** [lo, hi) is exactly [base, end) and the ranges of `s`. */
  ghost predicate Merged(s: seq<Range>, base: int, end: int, lo: int, hi: int) {
    forall a {:trigger Covers(s, a)} :: lo <= a < hi <==> base <= a < end || Covers(s, a)
  }

  /** Addition at work: `c` is `s` without its ranges i..i+k, which [lo, hi) has absorbed. */
  ghost predicate Swallowing(s: seq<Range>, c: seq<Range>, i: int, k: int, base: int, end: int, lo: int, hi: int) {
    && 0 <= i && 0 <= k && i + k <= |s| && c == s[..i] + s[i + k..]
    && 0 <= lo <= base < end <= hi < U64
    && (forall j :: 0 <= j < i ==> s[j].End() < lo)
    && (i + k < |s| ==> lo <= s[i + k].End())
    && Merged(s[i..i + k], base, end, lo, hi)
  }

  lemma StartSwallowing(s: seq<Range>, i: int, base: int, end: int)
    requires 0 <= i <= |s| && 0 <= base < end < U64
    requires forall j :: 0 <= j < i ==> s[j].End() < base
    requires i < |s| ==> base <= s[i].End()
    ensures Swallowing(s, s, i, 0, base, end, base, end)
  {
    assert s == s[..i] + s[i + 0..];
    assert s[i..i + 0] == [];
  }

  lemma SwallowStep(s: seq<Range>, c: seq<Range>, i: int, k: int, base: int, end: int, lo: int, hi: int)
    requires Canonical(s) && Swallowing(s, c, i, k, base, end, lo, hi) && i < |c| && c[i].base <= hi
    ensures c[i].End() < U64
    ensures var lo' := if c[i].base < lo then c[i].base else lo;
            var hi' := if c[i].End() > hi then c[i].End() else hi;
            Swallowing(s, c[..i] + c[i + 1..], i, k + 1, base, end, lo', hi')
  {
    hide Covers;
    var x := s[i + k];
    assert c[i] == x;
    var lo' := if x.base < lo then x.base else lo;
    var hi' := if x.End() > hi then x.End() else hi;
    assert c[..i] + c[i + 1..] == s[..i] + s[i + (k + 1)..];
    assert s[i..i + (k + 1)] == s[i..i + k] + [x];
    forall a {:trigger Covers(s[i..i + (k + 1)], a)}
      ensures lo' <= a < hi' <==> base <= a < end || Covers(s[i..i + (k + 1)], a)
    {
      CoversConcat(s[i..i + k], [x], a);
      CoversSingle(x, a);
    }
  }

  lemma Swallowed(s: seq<Range>, c: seq<Range>, i: int, k: int, base: int, end: int, lo: Word64, hi: Word64)
    requires Canonical(s) && Swallowing(s, c, i, k, base, end, lo, hi) && 0 <= i <= |c|
    requires i < |c| ==> hi < c[i].base
    ensures lo < hi
    ensures var t := c[..i] + [Range(lo, hi - lo)] + c[i..];
            Canonical(t) && IsUnion(t, s, base, end)
  {
    var x := Range(lo, hi - lo);
    var t := s[..i] + [x] + s[i + k..];
    assert c[..i] == s[..i] && c[i..] == s[i + k..];
    assert Canonical(t) by {
      hide Merged;
      InsertKeepsOrder(s, i, k, x);
    }
    assert IsUnion(t, s, base, end) by {
      hide Covers, Canonical;
      assert s == s[..i] + s[i..i + k] + s[i + k..];
      forall a ensures Covers(t, a) <==> Covers(s, a) || base <= a < end {
        Covers3(s[..i], [x], s[i + k..], a);
        Covers3(s[..i], s[i..i + k], s[i + k..], a);
        CoversSingle(x, a);
      }
    }
  }

  lemma InsertKeepsOrder(s: seq<Range>, i: int, k: int, x: Range)
    requires Canonical(s) && 0 <= i && 0 <= k && i + k <= |s| && 0 < x.size && x.End() < U64
    requires forall j :: 0 <= j < i ==> s[j].End() < x.base
    requires i + k < |s| ==> x.End() < s[i + k].base
    ensures Canonical(s[..i] + [x] + s[i + k..])
  {
    var t := s[..i] + [x] + s[i + k..];
    forall p | 0 <= p < |t| ensures 0 < t[p].size && t[p].End() < U64 {
      if p > i { assert t[p] == s[p - 1 + k]; }
    }
    forall p, q | 0 <= p < q < |t| ensures t[p].End() < t[q].base { InsertedPair(s, i, k, x, p, q); }
  }

  lemma InsertedPair(s: seq<Range>, i: int, k: int, x: Range, p: int, q: int)
    requires Canonical(s) && 0 <= i && 0 <= k && i + k <= |s|
    requires forall j :: 0 <= j < i ==> s[j].End() < x.base
    requires i + k < |s| ==> x.End() < s[i + k].base
    requires 0 <= p < q < i + 1 + |s| - i - k
    ensures var t := s[..i] + [x] + s[i + k..]; t[p].End() < t[q].base
  {
    var t := s[..i] + [x] + s[i + k..];
    if q > i {
      var q' := q - 1 + k;
      assert t[q] == s[q'];
      if p < i {
        assert s[p].End() < s[q'].base;
      } else if p == i {
        assert q' == i + k || s[i + k].End() < s[q'].base;
      } else {
        assert t[p] == s[p - 1 + k];
        assert s[p - 1 + k].End() < s[q'].base;
      }
    } else if q < i {
      assert s[p].End() < s[q].base;
    }
  }

  /**
   * Subtraction at work: `c` is `s` with its first `j` ranges cut down to the first `i`
   * of `c`; once a range was edited, every later range starts after `base`.
   */
  ghost predicate Trimming(s: seq<Range>, c: seq<Range>, i: int, j: int, base: int, end: int) {
    && 0 <= i <= |c| && 0 <= j <= |s|
    && c[i..] == s[j..] && Canonical(c)
    && IsDifference(c[..i], s[..j], base, end)
    && ((i == j && c == s) || (j > 0 && base < s[j - 1].End()))
  }

  lemma StartTrimming(s: seq<Range>, base: int, end: int)
    requires Canonical(s)
    ensures Trimming(s, s, 0, 0, base, end)
  {
  }

  lemma AtRange(s: seq<Range>, c: seq<Range>, i: int, j: int, base: int, end: int)
    requires Trimming(s, c, i, j, base, end) && 0 <= i < |c|
    ensures j < |s| && c[i] == s[j] && c[i + 1..] == s[j + 1..]
    ensures 0 < c[i].size && c[i].End() < U64
  {
    assert c[i..][0] == s[j..][0];
    assert c[i + 1..] == c[i..][1..];
    assert s[j + 1..] == s[j..][1..];
  }

  lemma NoEditBeforeSplit(s: seq<Range>, c: seq<Range>, i: int, j: int, base: int, end: int)
    requires Canonical(s) && Trimming(s, c, i, j, base, end) && 0 <= i < |c| && c[i].base < base
    ensures i == j && c == s
  {
    AtRange(s, c, i, j, base, end);
    assert j > 0 ==> s[j - 1].End() < s[j].base;
  }

  lemma TrimStep(s: seq<Range>, c: seq<Range>, i: int, j: int, base: int, end: int, kept: seq<Range>)
    requires Canonical(s) && Trimming(s, c, i, j, base, end) && i < |c| && base < end
    requires |kept| <= 1
    requires kept != [] ==> 0 < kept[0].size && c[i].base <= kept[0].base && kept[0].End() <= c[i].End()
    requires forall a :: (kept != [] && kept[0].Has(a)) <==> c[i].Has(a) && !(base <= a < end)
    requires kept == [c[i]] || base < c[i].End()
    ensures Trimming(s, c[..i] + kept + c[i + 1..], i + |kept|, j + 1, base, end)
  {
    hide Covers, IsDifference;
    AtRange(s, c, i, j, base, end);
    var t := c[..i] + kept + c[i + 1..];
    assert t[..i + |kept|] == c[..i] + kept;
    assert t[i + |kept|..] == c[i + 1..];
    TrimKeepsOrder(c, i, kept);
    ExtendDifference(s, j, c[..i], kept, base, end);
    if kept == [c[i]] { assert t == c; }
    assert j > 0 ==> s[j - 1].End() < s[j].base;
  }

  lemma TrimKeepsOrder(c: seq<Range>, i: int, kept: seq<Range>)
    requires Canonical(c) && 0 <= i < |c| && |kept| <= 1
    requires kept != [] ==> 0 < kept[0].size && c[i].base <= kept[0].base && kept[0].End() <= c[i].End()
    ensures Canonical(c[..i] + kept + c[i + 1..])
  {
    var t := c[..i] + kept + c[i + 1..];
    forall p | 0 <= p < |t| ensures 0 < t[p].size && t[p].End() < U64 { TrimmedAt(c, i, kept, p); }
    forall p, q | 0 <= p < q < |t| ensures t[p].End() < t[q].base {
      TrimmedAt(c, i, kept, p);
      TrimmedAt(c, i, kept, q);
      var p' := if p < i + |kept| then p else p + 1 - |kept|;
      var q' := if q < i + |kept| then q else q + 1 - |kept|;
      assert c[p'].End() < c[q'].base;
    }
  }

  lemma TrimmedAt(c: seq<Range>, i: int, kept: seq<Range>, p: int)
    requires 0 <= i < |c| && |kept| <= 1 && 0 <= p < |c| - 1 + |kept|
    requires kept != [] ==> c[i].base <= kept[0].base && kept[0].End() <= c[i].End()
    ensures var t := c[..i] + kept + c[i + 1..];
            var p' := if p < i + |kept| then p else p + 1 - |kept|;
            && c[p'].base <= t[p].base && t[p].End() <= c[p'].End()
            && (t[p] == c[p'] || (kept != [] && t[p] == kept[0]))
  {
  }

  lemma ExtendDifference(s: seq<Range>, j: int, done: seq<Range>, kept: seq<Range>, base: int, end: int)
    requires 0 <= j < |s| && |kept| <= 1
    requires IsDifference(done, s[..j], base, end)
    requires forall a :: (kept != [] && kept[0].Has(a)) <==> s[j].Has(a) && !(base <= a < end)
    ensures IsDifference(done + kept, s[..j + 1], base, end)
  {
    assert s[..j + 1] == s[..j] + [s[j]];
    forall a ensures Covers(done + kept, a) <==> Covers(s[..j + 1], a) && !(base <= a < end) {
      CoversConcat(done, kept, a);
      CoversConcat(s[..j], [s[j]], a);
      CoversSingle(s[j], a);
      if kept != [] { assert kept == [kept[0]]; CoversSingle(kept[0], a); }
    }
  }

  lemma Trimmed(s: seq<Range>, c: seq<Range>, i: int, j: int, base: int, end: int)
    requires Trimming(s, c, i, j, base, end) && i == |c|
    ensures IsDifference(c, s, base, end) && Canonical(c)
  {
    assert c[i..] == [];
    assert s[..j] == s && c[..i] == c;
  }

  lemma SplitIsDifference(s: seq<Range>, i: int, base: Word64, end: Word64, t: seq<Range>)
    requires Canonical(s) && 0 <= i < |s| && s[i].base < base < end < s[i].End()
    requires t == s[..i] + [Range(s[i].base, base - s[i].base), Range(end, s[i].End() - end)] + s[i + 1..]
    ensures Canonical(t)
    ensures IsDifference(t, s, base, end)
  {
    var x, y := Range(s[i].base, base - s[i].base), Range(end, s[i].End() - end);
    assert Canonical(t) by { SplitKeepsOrder(s, i, x, y); }
    assert IsDifference(t, s, base, end) by {
      forall a ensures Covers(t, a) <==> Covers(s, a) && !(base <= a < end) { SplitCovers(s, i, x, y, a); }
    }
  }

  lemma SplitKeepsOrder(s: seq<Range>, i: int, x: Range, y: Range)
    requires Canonical(s) && 0 <= i < |s| && 0 < x.size && 0 < y.size
    requires s[i].base == x.base && x.End() < y.base && y.End() == s[i].End()
    ensures Canonical(s[..i] + [x, y] + s[i + 1..])
  {
    TrimKeepsOrder(s, i, [x]);
    var u := s[..i] + [x] + s[i + 1..];
    assert i + 1 < |u| ==> s[i].End() < s[i + 1].base;
    assert forall j :: 0 <= j < i ==> s[j].End() < s[i].base;
    InsertKeepsOrder(u, i + 1, 0, y);
    assert u[..i + 1] + [y] + u[i + 1 + 0..] == s[..i] + [x, y] + s[i + 1..];
  }

  lemma SplitCovers(s: seq<Range>, i: int, x: Range, y: Range, a: int)
    requires Canonical(s) && 0 <= i < |s|
    requires s[i].base == x.base && x.End() <= y.base && y.End() == s[i].End()
    ensures Covers(s[..i] + [x, y] + s[i + 1..], a) <==> Covers(s, a) && !(x.End() <= a < y.base)
  {
    OthersOutside(s, i, a);
    hide Covers, Canonical;
    assert s == s[..i] + [s[i]] + s[i + 1..];
    assert [x, y] == [x] + [y];
    Covers3(s[..i], [s[i]], s[i + 1..], a);
    Covers3(s[..i], [x, y], s[i + 1..], a);
    CoversConcat([x], [y], a);
    CoversSingle(x, a);
    CoversSingle(y, a);
    CoversSingle(s[i], a);
  }

  lemma Covers3(s: seq<Range>, t: seq<Range>, u: seq<Range>, a: int)
    ensures Covers(s + t + u, a) <==> Covers(s, a) || Covers(t, a) || Covers(u, a)
  {
    CoversConcat(s + t, u, a);
    CoversConcat(s, t, a);
  }

  lemma OthersOutside(s: seq<Range>, i: int, a: int)
    requires Canonical(s) && 0 <= i < |s|
    ensures Covers(s[..i], a) ==> a < s[i].base
    ensures Covers(s[i + 1..], a) ==> s[i].End() < a
  {
    if Covers(s[..i], a) {
      var p :| 0 <= p < i && s[..i][p].Has(a);
      assert s[p].End() < s[i].base;
    }
    if Covers(s[i + 1..], a) {
      var p :| 0 <= p < |s| - i - 1 && s[i + 1..][p].Has(a);
      assert s[i].End() < s[i + 1 + p].base;
    }
  }

  // ---------------------------------------------------------------- intervals within a set

  lemma CanonicalBounds(s: seq<Range>, i: int)
    requires Canonical(s) && 0 <= i < |s|
    ensures 0 < s[i].size && s[i].End() < U64
  {
  }

  lemma NothingCovered(s: seq<Range>)
    requires s == []
    ensures Canonical(s) && forall a :: !Covers(s, a)
  {
  }

  lemma CoversPrefix(s: seq<Range>, i: int, a: int)
    requires 0 <= i < |s|
    ensures Covers(s[..i + 1], a) <==> Covers(s[..i], a) || s[i].Has(a)
  {
    assert s[..i + 1] == s[..i] + [s[i]];
    CoversConcat(s[..i], [s[i]], a);
    CoversSingle(s[i], a);
  }

  /** Every address of [lo, hi) is in the set. */
  ghost predicate AllCovered(s: seq<Range>, lo: int, hi: int) {
    forall a :: lo <= a < hi ==> Covers(s, a)
  }

  lemma GapAfter(s: seq<Range>, i: int)
    requires Canonical(s) && 0 <= i < |s|
    ensures !Covers(s, s[i].End())
  {
    forall j | 0 <= j < |s| ensures !s[j].Has(s[i].End()) {
      assert j < i ==> s[j].End() < s[i].base;
      assert j > i ==> s[i].End() < s[j].base;
    }
  }

  /** An interval all of whose addresses are in a canonical set lies within a single range. */
  lemma InsideOneRange(s: seq<Range>, lo: int, hi: int)
    requires Canonical(s) && lo < hi
    ensures AllCovered(s, lo, hi) <==> exists x :: x in s && x.base <= lo && hi <= x.End()
  {
    if AllCovered(s, lo, hi) {
      assert Covers(s, lo);
      var i :| 0 <= i < |s| && s[i].Has(lo);
      GapAfter(s, i);
      assert hi <= s[i].End();
      assert s[i] in s;
    }
    if x :| x in s && x.base <= lo && hi <= x.End() {
      var i :| 0 <= i < |s| && s[i] == x;
      forall a | lo <= a < hi ensures Covers(s, a) { assert s[i].Has(a); }
    }
  }

  // ---------------------------------------------------------------- counting addresses

  ghost function SizeSum(s: seq<Range>): (n: nat) {
    if s == [] then 0 else s[0].size + SizeSum(s[1..])
  }

  ghost function Addresses(s: seq<Range>): set<int> {
    set a | 0 <= a < U64 && Covers(s, a)
  }

  ghost predicate Between(lo: int, a: int, hi: int) { lo <= a < hi }

  ghost function Interval(lo: int, hi: int): set<int> {
    set a | lo <= a < hi && Between(lo, a, hi)
  }

  lemma {:induction false} IntervalSize(lo: int, hi: int)
    requires lo <= hi
    ensures |Interval(lo, hi)| == hi - lo
    decreases hi - lo
  {
    if lo < hi {
      IntervalSize(lo, hi - 1);
      assert Interval(lo, hi) == Interval(lo, hi - 1) + {hi - 1};
    }
  }

  /** In a canonical set the sizes add up to the number of addresses. */
  lemma {:induction false} SizeSumCounts(s: seq<Range>)
    requires Canonical(s)
    ensures |Addresses(s)| == SizeSum(s)
    decreases |s|
  {
    if s == [] {
      assert Addresses(s) == {};
    } else {
      hide Covers, Canonical, Addresses;
      TailCanonical(s);
      var head, tail := Interval(s[0].base, s[0].End()), Addresses(s[1..]);
      SizeSumCounts(s[1..]);
      IntervalSize(s[0].base, s[0].End());
      HeadAndTail(s);
      assert |head + tail| == |head| + |tail|;
    }
  }

  lemma TailCanonical(s: seq<Range>)
    requires Canonical(s) && s != []
    ensures Canonical(s[1..])
  {
  }

  lemma HeadAndTail(s: seq<Range>)
    requires Canonical(s) && s != []
    ensures Addresses(s) == Interval(s[0].base, s[0].End()) + Addresses(s[1..])
    ensures Interval(s[0].base, s[0].End()) !! Addresses(s[1..])
  {
    hide Covers;
    CanonicalBounds(s, 0);
    forall a ensures Covers(s[1..], a) <==> Covers(s, a) && !s[0].Has(a) { TailCovers(s, a); }
    forall a | s[0].Has(a) ensures Covers(s, a) {
      CoversConcat([s[0]], s[1..], a);
      CoversSingle(s[0], a);
      assert s == [s[0]] + s[1..];
    }
  }

  lemma {:induction false} SizeSumAppend(s: seq<Range>, x: Range)
    ensures SizeSum(s + [x]) == SizeSum(s) + x.size
    decreases |s|
  {
    if s == [] {
      assert s + [x] == [x];
    } else {
      assert (s + [x])[1..] == s[1..] + [x];
      SizeSumAppend(s[1..], x);
    }
  }

  /** The sizes of ordered disjoint ranges never add up past the end of the last one. */
  lemma {:induction false} SizeSumBelow(s: seq<Range>, top: int)
    requires Canonical(s) && 0 <= top && (s != [] ==> s[|s| - 1].End() <= top)
    ensures SizeSum(s) <= top
    decreases |s|
  {
    if s != [] {
      var m := s[..|s| - 1];
      assert s == m + [s[|s| - 1]];
      SizeSumAppend(m, s[|s| - 1]);
      SizeSumBelow(m, s[|s| - 1].base);
    }
  }

  lemma SizeSumPrefix(s: seq<Range>, i: int)
    requires Canonical(s) && 0 <= i < |s|
    ensures SizeSum(s[..i + 1]) == SizeSum(s[..i]) + s[i].size < U64
  {
    assert s[..i + 1] == s[..i] + [s[i]];
    SizeSumAppend(s[..i], s[i]);
    SizeSumBelow(s[..i + 1], U64 - 1);
  }
}
