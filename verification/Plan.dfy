/**
 * What a successor may take and keep: takeable resources (lib/takeable.c), the
 * adoption plan and the memory kept for the next pool (kmorphd/ops.c).
 */
module Plans {
  import opened Bytes
  import opened Errno
  import opened Ranges
  import opened Rounding
  import opened RangeSets
  import opened Options
  import opened Records

  // ---------------------------------------------------------------- CPUs

  /** The ids of `all` outside `minus`, each once, in order of first appearance. */
  ghost predicate IsCpuDifference(out: seq<Word64>, all: seq<Word64>, minus: seq<Word64>) {
    && (forall c :: c in out <==> c in all && c !in minus)
    && (forall i, j :: 0 <= i < j < |out| ==> out[i] != out[j])
    && (forall i, j :: 0 <= i < j < |out| ==> FirstAt(all, out[i]) < FirstAt(all, out[j]))
  }

  ghost function FirstAt(s: seq<Word64>, c: Word64): nat {
    if s == [] || s[0] == c then 0 else 1 + FirstAt(s[1..], c)
  }

  lemma {:induction false} FirstAtAppend(s: seq<Word64>, c: Word64, d: Word64)
    ensures FirstAt(s, c) <= |s| && (c in s <==> FirstAt(s, c) < |s|)
    ensures c in s ==> FirstAt(s + [d], c) == FirstAt(s, c)
    ensures d !in s ==> FirstAt(s + [d], d) == |s|
    decreases |s|
  {
    if s != [] {
      assert (s + [d])[1..] == s[1..] + [d];
      assert s == [s[0]] + s[1..];
      FirstAtAppend(s[1..], c, d);
      FirstAtAppend(s[1..], d, d);
    }
  }

  lemma CpuStep(out: seq<Word64>, all: seq<Word64>, minus: seq<Word64>, d: Word64)
    requires IsCpuDifference(out, all, minus)
    ensures IsCpuDifference(if d !in minus && d !in out then out + [d] else out, all + [d], minus)
  {
    forall c ensures c in out ==> c in all && FirstAt(all + [d], c) == FirstAt(all, c) < |all| {
      FirstAtAppend(all, c, d);
    }
    FirstAtAppend(all, d, d);
  }

  method CpuListDifference(all: seq<Word64>, minus: seq<Word64>) returns (ret: int, out: seq<Word64>)
    ensures ret in {0, -ENOMEM}
    ensures ret == 0 ==> IsCpuDifference(out, all, minus)
  {
    hide IsCpuDifference;
    out := [];
    var granted: bool := *;
    if !granted {
      return -ENOMEM, out;
    }
    assert IsCpuDifference(out, all[..0], minus) by { NoCpus(all[..0], minus); }
    var i := 0;
    while i < |all|
      invariant i <= |all| && IsCpuDifference(out, all[..i], minus)
    {
      CpuStep(out, all[..i], minus, all[i]);
      assert all[..i + 1] == all[..i] + [all[i]];
      if all[i] !in minus && all[i] !in out {
        out := out + [all[i]];
      }
      i := i + 1;
    }
    assert all[..i] == all;
    ret := 0;
  }

  lemma NoCpus(all: seq<Word64>, minus: seq<Word64>)
    requires all == []
    ensures IsCpuDifference([], all, minus)
  {
  }

  // ---------------------------------------------------------------- takeable memory

  /** Address `a` is machine RAM, not the successor's own, not one of the kernel's regions. */
  ghost predicate Free(host: seq<Range>, own: seq<Range>, reserved: seq<Range>, a: int) {
    Covers(host, a) && !Covers(own, a) && !Covers(reserved, a)
  }

  ghost predicate IsTakeable(memory: seq<Range>, host: seq<Range>, own: seq<Range>, reserved: seq<Range>) {
    Canonical(memory) && forall a :: Covers(memory, a) <==> Free(host, own, reserved, a)
  }

  /** RAM minus own minus reserved, and the CPUs not owned; -ENOENT when either is empty. */
  method TakeableCompute(host: RangeSet, hostCpus: seq<Word64>, own: RangeSet, reserved: RangeSet, ownCpus: seq<Word64>)
    returns (ret: int, memory: RangeSet, cpus: seq<Word64>)
    requires host.Valid() && own.Valid() && reserved.Valid()
    ensures ret in {0, -ENOMEM, -ENOENT} && fresh(memory) && memory.Valid() && fresh(memory.r)
    ensures ret == 0 ==> IsTakeable(memory.Contents(), host.Contents(), own.Contents(), reserved.Contents())
    ensures ret == 0 ==> IsCpuDifference(cpus, hostCpus, ownCpus)
    ensures ret == 0 ==> memory.Contents() != [] && cpus != []
    ensures ret == -ENOENT ==>
              (forall a :: !Free(host.Contents(), own.Contents(), reserved.Contents(), a))
              || (forall c :: c in hostCpus ==> c in ownCpus)
    ensures ret != 0 ==> memory.Contents() == [] && cpus == []
  {
    hide Covers, Canonical;
    cpus := [];
    memory := new RangeSet();
    ret := memory.Copy(host);
    if ret == 0 {
      ret := memory.SubtractSet(own);
    }
    if ret == 0 {
      ret := memory.SubtractSet(reserved);
    }
    if ret == 0 {
      ret, cpus := CpuListDifference(hostCpus, ownCpus);
    }
    if ret == 0 && (memory.count == 0 || cpus == []) {
      ret := -ENOENT;
      if memory.count == 0 { NothingCovered(memory.Contents()); }
    }
    if ret != 0 {
      memory := new RangeSet();
      cpus := [];
    }
  }

  // ---------------------------------------------------------------- memory kept for the next pool

  /** The size of a next pool: the memory rounded up, and one granule. */
  function Want(memory: Word64, granule: Word64): Word64
    requires granule > 0
  {
    Plus(RoundUp(memory, granule), granule)
  }

  /** `x` is a largest range of `s`. */
  ghost predicate Largest(s: seq<Range>, x: Range) {
    x in s && forall y :: y in s ==> y.size <= x.size
  }

  /** The claim is the top `want` bytes of a largest range. */
  ghost predicate IsTop(claim: Range, s: seq<Range>, want: Word64) {
    claim.size == want && exists x :: Largest(s, x) && x.base <= claim.base && claim.End() == x.End()
  }

  /** The claim is such a top and not empty, and `rest` is what remains. */
  ghost predicate IsKept(claim: Range, rest: seq<Range>, s: seq<Range>, want: Word64) {
    0 < want && IsTop(claim, s, want) && Canonical(rest) && IsDifference(rest, s, claim.base, claim.End())
  }

  /** The attempt to record a claim: none, or the range and how writing it went. */
  datatype Attempt = NoAttempt | Attempt(claim: Range, written: Written)

  predicate Recordable(a: Attempt) {
    a.Attempt? ==> WrittenOf(a.written, ClaimText(a.claim))
  }

  /** The record file after an attempt. */
  function AfterAttempt(file: Option<seq<Byte>>, a: Attempt): Option<seq<Byte>> {
    if a.NoAttempt? then file else AfterWrite(file, ClaimText(a.claim), a.written)
  }

  predicate WholeAttempt(a: Attempt) {
    a.Attempt? && a.written.Whole?
  }

  method FindLargest(s: RangeSet) returns (found: bool, x: Range)
    requires s.Valid()
    ensures found <==> s.Contents() != []
    ensures found ==> Largest(s.Contents(), x)
  {
    hide Canonical;
    ghost var c := s.Contents();
    found, x := false, Range(0, 0);
    var i := 0;
    while i < s.count
      invariant i <= s.count && (found <==> i > 0)
      invariant found ==> Largest(c[..i], x)
    {
      assert c[..i + 1] == c[..i] + [c[i]];
      if !found || s.r[i].size > x.size {
        found, x := true, s.r[i];
      }
      i := i + 1;
    }
    assert c[..i] == c;
  }

  /**
   * Takes the next pool whole from the top of the largest adoptable range, provided it can
   * be recorded. Only a pool size that wrapped to zero makes this fail.
   */
  method KeepForPool(adoptable: RangeSet, memory: Word64, hasPath: bool, granule: Word64, file: File)
    returns (ret: int, attempt: Attempt)
    requires adoptable.Valid() && granule > 0
    modifies adoptable, adoptable.r, file
    ensures adoptable.Valid() && (adoptable.r == old(adoptable.r) || fresh(adoptable.r))
    ensures attempt.Attempt? <==> memory != 0 && hasPath &&
                                  exists x :: Largest(old(adoptable.Contents()), x) && Want(memory, granule) <= x.size
    ensures attempt.Attempt? ==> IsTop(attempt.claim, old(adoptable.Contents()), Want(memory, granule))
    ensures Recordable(attempt) && file.text == AfterAttempt(old(file.text), attempt)
    ensures ret in {0, -EINVAL} && (ret != 0 <==> WholeAttempt(attempt) && Want(memory, granule) == 0)
    ensures ret == 0 && WholeAttempt(attempt) ==>
              IsKept(attempt.claim, adoptable.Contents(), old(adoptable.Contents()), Want(memory, granule))
    ensures !WholeAttempt(attempt) ==> adoptable.Contents() == old(adoptable.Contents())
  {
    hide Covers, Canonical, IsDifference, ClaimText;
    ret, attempt := 0, NoAttempt;
    if memory == 0 || !hasPath {
      return;
    }
    ghost var s := adoptable.Contents();
    var want := Want(memory, granule);
    var found, largest := FindLargest(adoptable);
    if !found || largest.size < want {
      return;
    }
    InSetBounds(s, largest);
    var claim := Range(largest.End() - want, want);
    var err, written := file.Write(ClaimText(claim));
    attempt := Attempt(claim, written);
    if err != 0 {
      return;
    }
    NoSplitAtTop(s, largest, want);
    ret := adoptable.Subtract(claim.base, claim.size);
  }

  lemma InSetBounds(s: seq<Range>, x: Range)
    requires Canonical(s) && x in s
    ensures 0 < x.size && x.End() < U64
  {
  }

  /** Cutting the top off a range never falls strictly inside any range, so nothing splits. */
  lemma NoSplitAtTop(s: seq<Range>, x: Range, want: Word64)
    requires Canonical(s) && x in s && want <= x.size
    ensures forall y :: y in s ==> !(y.base < x.End() - want && x.End() < y.End())
  {
    var i :| 0 <= i < |s| && s[i] == x;
    forall y | y in s ensures !(y.base < x.End() - want && x.End() < y.End()) {
      var j :| 0 <= j < |s| && s[j] == y;
      assert i < j ==> s[i].End() < s[j].base;
      assert j < i ==> s[j].End() < s[i].base;
    }
  }

  // ---------------------------------------------------------------- the whole plan

  /** What a plan was computed from, and what it decided. */
  datatype Plan = Plan(
    host: seq<Range>, own: seq<Range>, reserved: seq<Range>, granule: Word64,
    memory: seq<Range>, cpus: seq<Word64>, adoptable: seq<Range>, attempt: Attempt)
  {
    predicate Recorded() { WholeAttempt(attempt) }

    /** The memory kept for the next pool; none if it could not be recorded. */
    function Claim(): Range { if Recorded() then attempt.claim else Range(0, 0) }
  }

  /** Address `a` is in a block of the granule made of free memory only. */
  ghost predicate InFreeBlock(p: Plan, a: int)
    requires p.granule > 0
  {
    0 <= a && FreeFrom(p, a / p.granule * p.granule)
  }

  ghost predicate FreeFrom(p: Plan, lo: int) {
    forall b :: lo <= b < lo + p.granule ==> Free(p.host, p.own, p.reserved, b)
  }

  /** The sets of a plan as the code computes them, wrap-around included. */
  ghost predicate Planned(p: Plan, hostCpus: seq<Word64>, ownCpus: seq<Word64>, next: Word64, hasPath: bool) {
    && p.granule > 0
    && IsTakeable(p.memory, p.host, p.own, p.reserved)
    && IsCpuDifference(p.cpus, hostCpus, ownCpus)
    && (p.attempt.Attempt? ==> next != 0 && hasPath && Recordable(p.attempt))
    && Canonical(p.adoptable)
    && (exists a0 :: Aligned(a0, p.memory, p.granule) && CarvedFrom(p, a0, next))
  }

  ghost predicate Aligned(a0: seq<Range>, memory: seq<Range>, granule: Word64)
    requires granule > 0
  {
    Canonical(a0) && forall a :: Covers(a0, a) <==> Rounded(memory, granule, a)
  }

  ghost predicate CarvedFrom(p: Plan, a0: seq<Range>, next: Word64)
    requires p.granule > 0
  {
    && (p.attempt.Attempt? ==> IsTop(p.attempt.claim, a0, Want(next, p.granule)))
    && if p.Recorded() then IsKept(p.Claim(), p.adoptable, a0, Want(next, p.granule)) else p.adoptable == a0
  }

  /**
   * `plan_adoption`, given the own RAM this kernel reported. The granule is asked for once
   * there is something to take.
   */
  method PlanAdoption(host: RangeSet, hostCpus: seq<Word64>, own: RangeSet, reserved: RangeSet, ownCpus: seq<Word64>,
                      granuleRet: int, granule: Word64, next: Word64, hasPath: bool, file: File)
    returns (ret: int, p: Plan, adoptable: RangeSet)
    requires host.Valid() && own.Valid() && reserved.Valid() && (granuleRet == 0 ==> granule > 0)
    modifies file
    ensures fresh(adoptable) && fresh(adoptable.r) && adoptable.Valid()
    ensures p.host == host.Contents() && p.own == own.Contents() && p.reserved == reserved.Contents()
    ensures p.granule == granule && p.adoptable == adoptable.Contents()
    ensures ret == 0 ==> Planned(p, hostCpus, ownCpus, next, hasPath)
    ensures ret == 0 ==> granuleRet == 0 && p.memory != [] && p.cpus != []
    ensures granuleRet != 0 ==> ret in {-ENOMEM, -ENOENT, granuleRet} && p.attempt == NoAttempt
    ensures Recordable(p.attempt) && file.text == AfterAttempt(old(file.text), p.attempt)
    ensures ret != 0 && p.attempt.Attempt? ==> p.Recorded() && p.Claim().size == 0
  {
    hide Covers, Canonical, IsKept, IsCpuDifference, Rounded, ClaimText, Want;
    adoptable := new RangeSet();
    p := Plan(host.r[..host.count], own.r[..own.count], reserved.r[..reserved.count], granule, [], [], [],
              NoAttempt);
    var memory, cpus;
    ret, memory, cpus := TakeableCompute(host, hostCpus, own, reserved, ownCpus);
    if ret != 0 {
      return;
    }
    p := p.(memory := memory.r[..memory.count], cpus := cpus);
    if granuleRet != 0 {
      return granuleRet, p, adoptable;
    }
    NothingCovered(adoptable.Contents());
    ret := adoptable.AddAligned(memory, granule);
    if ret != 0 {
      p := p.(adoptable := adoptable.r[..adoptable.count]);
      return;
    }
    ghost var a0 := adoptable.Contents();
    assert Aligned(a0, p.memory, granule);
    var attempt;
    ret, attempt := KeepForPool(adoptable, next, hasPath, granule, file);
    p := p.(adoptable := adoptable.r[..adoptable.count], attempt := attempt);
    if ret == 0 {
      assert CarvedFrom(p, a0, next);
    }
  }

  // ---------------------------------------------------------------- the plan is exact and maximal

  /** No rounding of the plan wraps, or only over memory that is free anyway. */
  ghost predicate Unwrapped(p: Plan) {
    p.granule > 0 && Canonical(p.memory) && RoundingSafe(p.memory, p.granule)
  }

  /** The top granule of the address space is not RAM. */
  ghost predicate BelowTop(host: seq<Range>, granule: Word64) {
    forall i :: 0 <= i < |host| ==> host[i].End() + granule <= U64
  }

  lemma TakeableBelowTop(memory: seq<Range>, p: Plan)
    requires IsTakeable(memory, p.host, p.own, p.reserved) && BelowTop(p.host, p.granule)
    ensures forall i :: 0 <= i < |memory| ==> memory[i].base + p.granule <= U64
  {
    forall i | 0 <= i < |memory| ensures memory[i].base + p.granule <= U64 {
      assert memory[i].Has(memory[i].base);
      assert Covers(memory, memory[i].base);
      var j :| 0 <= j < |p.host| && p.host[j].Has(memory[i].base);
    }
  }

  /** A machine whose top granule is not RAM never wraps. */
  lemma BelowTopUnwrapped(p: Plan)
    requires p.granule > 0 && IsTakeable(p.memory, p.host, p.own, p.reserved) && BelowTop(p.host, p.granule)
    ensures Unwrapped(p)
  {
    TakeableBelowTop(p.memory, p);
  }

  lemma FreeBlockIsWholeBlock(p: Plan, a: int)
    requires p.granule > 0 && IsTakeable(p.memory, p.host, p.own, p.reserved)
    ensures InFreeBlock(p, a) <==> InWholeBlock(p.memory, p.granule, a)
  {
  }

  /** Every range starts and ends on a multiple of `d`. */
  ghost predicate OnBoundaries(s: seq<Range>, d: int)
    requires d > 0
  {
    forall i :: 0 <= i < |s| ==> s[i].base % d == 0 && s[i].End() % d == 0
  }

  /** With an address, the set has the whole block around it. */
  ghost predicate BlockClosed(s: seq<Range>, d: int)
    requires d > 0
  {
    forall a, b :: Covers(s, a) && a / d == b / d ==> Covers(s, b)
  }

  lemma NotBeforeRange(s: seq<Range>, i: int)
    requires Canonical(s) && 0 <= i < |s|
    ensures !Covers(s, s[i].base - 1)
  {
    forall j | 0 <= j < |s| ensures !s[j].Has(s[i].base - 1) {
      assert j < i ==> s[j].End() < s[i].base;
      assert j > i ==> s[i].End() < s[j].base;
    }
  }

  lemma SameBlockBelow(a: int, d: int)
    requires d > 0 && a % d != 0
    ensures a / d == (a - 1) / d
  {
    var q := a / d;
    assert a == q * d + a % d;
    Rounding.AtMostQuotient(q, a - 1, d);
    Rounding.AtMostQuotient(q + 1, a - 1, d);
    assert (q + 1) * d == q * d + d;
  }

  /** A canonical set that is a union of blocks has all its ranges on block boundaries. */
  lemma BlockClosedOnBoundaries(s: seq<Range>, d: int)
    requires Canonical(s) && d > 0 && BlockClosed(s, d)
    ensures OnBoundaries(s, d)
  {
    forall i | 0 <= i < |s| ensures s[i].base % d == 0 && s[i].End() % d == 0 {
      var b, e := s[i].base, s[i].End();
      assert s[i].Has(b) && s[i].Has(e - 1);
      assert Covers(s, b) && Covers(s, e - 1);
      if b % d != 0 { SameBlockBelow(b, d); NotBeforeRange(s, i); }
      if e % d != 0 { SameBlockBelow(e, d); GapAfter(s, i); }
    }
  }

  lemma AlignedIsFreeBlocks(p: Plan, a0: seq<Range>)
    requires IsTakeable(p.memory, p.host, p.own, p.reserved) && Unwrapped(p) && Aligned(a0, p.memory, p.granule)
    ensures forall a :: Covers(a0, a) <==> InFreeBlock(p, a)
    ensures BlockClosed(a0, p.granule)
  {
    hide Covers, Canonical, Rounded, InFreeBlock, InWholeBlock, IsTakeable;
    RoundingExact(p.memory, p.granule);
    forall a ensures Covers(a0, a) <==> InFreeBlock(p, a) { FreeBlockIsWholeBlock(p, a); }
    forall a, b | Covers(a0, a) && a / p.granule == b / p.granule ensures Covers(a0, b) { SameFreeBlock(p, a, b); }
  }

  lemma TakeableIsCanonical(p: Plan)
    requires IsTakeable(p.memory, p.host, p.own, p.reserved)
    ensures Canonical(p.memory)
  {
  }

  lemma SameFreeBlock(p: Plan, a: int, b: int)
    requires p.granule > 0 && InFreeBlock(p, a) && a / p.granule == b / p.granule
    ensures InFreeBlock(p, b)
  {
    hide FreeFrom;
    Rounding.AtMostQuotient(0, a, p.granule);
    Rounding.AtMostQuotient(0, b, p.granule);
  }

  /** The size asked for a pool is a whole number of granules exactly when adding the last one cannot break it. */
  lemma WantIsMultiple(memory: Word64, granule: Word64)
    requires granule > 0
    ensures Want(memory, granule) % granule == 0 <==> RoundUp(memory, granule) + granule < U64 || U64 % granule == 0
  {
    var q := Plus(memory, granule - 1) / granule;
    var sum := q * granule + granule;
    assert sum == (q + 1) * granule;
    MultipleModulo(q + 1, granule);
    if sum >= U64 {
      assert Want(memory, granule) == sum - U64;
      if U64 % granule == 0 { MultipleDifference(sum, U64, granule); }
      if (sum - U64) % granule == 0 { MultipleDifference(sum, sum - U64, granule); }
    }
  }

  lemma MultipleModulo(q: int, d: int)
    requires d > 0
    ensures (q * d) % d == 0
  {
    Rounding.AtMostQuotient(q, q * d, d);
    Rounding.AtMostQuotient(q + 1, q * d, d);
    assert (q + 1) * d == q * d + d;
  }

  lemma MultipleDifference(x: int, y: int, d: int)
    requires d > 0 && x % d == 0 && y % d == 0
    ensures (x - y) % d == 0
  {
    var p, q := x / d, y / d;
    assert x - y == p * d - q * d == (p - q) * d;
    MultipleModulo(p - q, d);
  }

  /** A multiple of `d` never separates two addresses of one block. */
  lemma BoundaryBetween(a: int, b: int, m: int, d: int)
    requires d > 0 && a / d == b / d && m % d == 0
    ensures m <= a <==> m <= b
  {
    assert m == m / d * d;
    Rounding.AtMostQuotient(m / d, a, d);
    Rounding.AtMostQuotient(m / d, b, d);
  }

  lemma KeptOnBoundaries(claim: Range, rest: seq<Range>, s: seq<Range>, want: Word64, d: int)
    requires d > 0 && Canonical(s) && BlockClosed(s, d) && IsKept(claim, rest, s, want) && want % d == 0
    ensures claim.base % d == 0 && claim.size % d == 0 && claim.End() % d == 0
    ensures OnBoundaries(rest, d)
  {
    hide Covers, Canonical;
    BlockClosedOnBoundaries(s, d);
    var x :| Largest(s, x) && x.base <= claim.base && claim.End() == x.End();
    var i :| 0 <= i < |s| && s[i] == x;
    MultipleDifference(x.End(), want, d);
    forall a, b | Covers(rest, a) && a / d == b / d ensures Covers(rest, b) {
      BoundaryBetween(a, b, claim.base, d);
      BoundaryBetween(a, b, claim.End(), d);
    }
    BlockClosedOnBoundaries(rest, d);
  }

  /**
   * The plan is exact and maximal. Adoptable memory and the claim partition the free granules,
   * those made only of RAM that is neither the successor's own nor reserved, and both
   * consist of whole granules.
   */
  lemma PlanExact(p: Plan, hostCpus: seq<Word64>, ownCpus: seq<Word64>, next: Word64, hasPath: bool)
    requires Planned(p, hostCpus, ownCpus, next, hasPath) && Unwrapped(p)
    ensures forall a :: InFreeBlock(p, a) <==> Covers(p.adoptable, a) || p.Claim().Has(a)
    ensures forall a :: !(Covers(p.adoptable, a) && p.Claim().Has(a))
    ensures OnBoundaries(p.adoptable, p.granule) && (p.Recorded() ==> OnBoundaries([p.Claim()], p.granule)) <==>
            (p.Recorded() ==> Want(next, p.granule) % p.granule == 0)
  {
    hide Covers, Canonical, InFreeBlock, IsTakeable, IsCpuDifference, BlockClosed, OnBoundaries, Want;
    var a0 :| Aligned(a0, p.memory, p.granule) && CarvedFrom(p, a0, next);
    AlignedIsFreeBlocks(p, a0);
    if p.Recorded() {
      var want := Want(next, p.granule);
      if want % p.granule == 0 { KeptOnBoundaries(p.Claim(), p.adoptable, a0, want, p.granule); }
      KeptPartitions(p.Claim(), p.adoptable, a0, want);
      ClaimOnBoundaries(p.Claim(), p.granule);
    } else {
      BlockClosedOnBoundaries(a0, p.granule);
    }
  }

  lemma ClaimOnBoundaries(c: Range, d: int)
    requires d > 0
    ensures OnBoundaries([c], d) <==> c.base % d == 0 && c.End() % d == 0
    ensures OnBoundaries([c], d) ==> c.size % d == 0
  {
    if OnBoundaries([c], d) {
      assert [c][0] == c;
      MultipleDifference(c.End(), c.base, d);
    }
  }

  lemma KeptPartitions(claim: Range, rest: seq<Range>, s: seq<Range>, want: Word64)
    requires Canonical(s) && IsKept(claim, rest, s, want)
    ensures forall a :: Covers(s, a) <==> Covers(rest, a) || claim.Has(a)
    ensures forall a :: !(Covers(rest, a) && claim.Has(a))
  {
    var x :| Largest(s, x) && x.base <= claim.base && claim.End() == x.End();
    var i :| 0 <= i < |s| && s[i] == x;
    forall a ensures Covers(s, a) <==> Covers(rest, a) || claim.Has(a) {
      if claim.Has(a) { assert s[i].Has(a); }
    }
  }

  /** The claim is never adoptable, wrapped or not. */
  lemma ClaimApart(p: Plan, hostCpus: seq<Word64>, ownCpus: seq<Word64>, next: Word64, hasPath: bool)
    requires Planned(p, hostCpus, ownCpus, next, hasPath)
    ensures forall a :: !(Covers(p.adoptable, a) && p.Claim().Has(a))
  {
    hide Covers, Canonical, IsTakeable, IsCpuDifference;
    var a0 :| Aligned(a0, p.memory, p.granule) && CarvedFrom(p, a0, next);
    if p.Recorded() { KeptPartitions(p.Claim(), p.adoptable, a0, Want(next, p.granule)); }
  }

  /** Nothing but free memory is ever adoptable or claimed, and nothing is both. */
  lemma PlanSafe(p: Plan, hostCpus: seq<Word64>, ownCpus: seq<Word64>, next: Word64, hasPath: bool)
    requires Planned(p, hostCpus, ownCpus, next, hasPath) && Unwrapped(p)
    ensures forall a :: Covers(p.adoptable, a) || p.Claim().Has(a) ==> Free(p.host, p.own, p.reserved, a)
    ensures forall a :: !(Covers(p.adoptable, a) && p.Claim().Has(a))
  {
    hide Covers, Canonical, InFreeBlock, IsTakeable, IsCpuDifference, BlockClosed, Free;
    var a0 :| Aligned(a0, p.memory, p.granule) && CarvedFrom(p, a0, next);
    AlignedIsFreeBlocks(p, a0);
    if p.Recorded() { KeptPartitions(p.Claim(), p.adoptable, a0, Want(next, p.granule)); }
    forall a | InFreeBlock(p, a) ensures Free(p.host, p.own, p.reserved, a) { InOwnBlock(p, a); }
  }

  lemma InOwnBlock(p: Plan, a: int)
    requires p.granule > 0 && InFreeBlock(p, a)
    ensures Free(p.host, p.own, p.reserved, a)
  {
    Rounding.MultipleBelow(a, p.granule);
  }

  /** What is adoptable or claimed is what rounding the free memory gave. */
  lemma PlannedIsRounded(p: Plan, hostCpus: seq<Word64>, ownCpus: seq<Word64>, next: Word64, hasPath: bool)
    requires Planned(p, hostCpus, ownCpus, next, hasPath)
    ensures forall a :: Covers(p.adoptable, a) || p.Claim().Has(a) <==> Rounded(p.memory, p.granule, a)
  {
    hide Covers, Canonical, IsTakeable, IsCpuDifference, Rounded;
    var a0 :| Aligned(a0, p.memory, p.granule) && CarvedFrom(p, a0, next);
    if p.Recorded() { KeptPartitions(p.Claim(), p.adoptable, a0, Want(next, p.granule)); }
  }

  /**
   * Without any assumption on where memory lies: the plan covers exactly the free granules if
   * and only if no round-up wraps, or wraps only over memory that is free anyway.
   */
  lemma PlanExactIff(p: Plan, hostCpus: seq<Word64>, ownCpus: seq<Word64>, next: Word64, hasPath: bool)
    requires Planned(p, hostCpus, ownCpus, next, hasPath)
    ensures RoundingSafe(p.memory, p.granule) <==>
            forall a :: InFreeBlock(p, a) <==> Covers(p.adoptable, a) || p.Claim().Has(a)
  {
    hide Covers, Canonical, IsTakeable, IsCpuDifference, Rounded, RoundingSafe, InFreeBlock, InWholeBlock;
    PlannedIsRounded(p, hostCpus, ownCpus, next, hasPath);
    TakeableIsCanonical(p);
    RoundingExact(p.memory, p.granule);
    forall a ensures InFreeBlock(p, a) <==> InWholeBlock(p.memory, p.granule, a) { FreeBlockIsWholeBlock(p, a); }
  }

  /** The same condition decides whether the plan stays inside free memory. */
  lemma PlanSafeIff(p: Plan, hostCpus: seq<Word64>, ownCpus: seq<Word64>, next: Word64, hasPath: bool)
    requires Planned(p, hostCpus, ownCpus, next, hasPath)
    ensures RoundingSafe(p.memory, p.granule) <==>
            forall a :: Covers(p.adoptable, a) || p.Claim().Has(a) ==> Free(p.host, p.own, p.reserved, a)
  {
    hide Covers, Canonical, IsCpuDifference, Rounded, RoundingSafe, Free;
    PlannedIsRounded(p, hostCpus, ownCpus, next, hasPath);
    RoundingInside(p.memory, p.granule);
  }
}
