/** How the next arm builds its pool (kmorph/arm.c, lib/dt.c) from the memory kept for it. */
module Pools {
  import opened Bytes
  import opened Options
  import opened Ranges
  import opened Plans
  import opened Records
  import opened Rounding

  // ---------------------------------------------------------------- the baseline

  /** A memory node of a pool baseline: a given range, or an amount the kernel finds itself. */
  datatype MemoryNode = Region(range: Range) | Amount(bytes: Word64)

  /** `build_pool_baseline`: the claim, then whatever it does not cover. */
  function BaselineMemory(bytes: Word64, claim: Option<Range>): seq<MemoryNode> {
    var grow := match claim
      case None => bytes
      case Some(c) => if bytes > c.size then bytes - c.size else 0;
    (if claim.Some? then [Region(claim.value)] else []) + (if grow != 0 then [Amount(grow)] else [])
  }

  function RequestedBytes(nodes: seq<MemoryNode>): nat {
    if nodes == [] then 0
    else (match nodes[0] case Region(r) => r.size case Amount(n) => n) + RequestedBytes(nodes[1..])
  }

  /** A baseline always describes enough memory for the pool, and exactly enough unless the claim alone exceeds it. */
  lemma BaselineSuffices(bytes: Word64, claim: Option<Range>)
    ensures RequestedBytes(BaselineMemory(bytes, claim)) ==
            if claim.Some? && claim.value.size > bytes then claim.value.size else bytes
  {
    var nodes := BaselineMemory(bytes, claim);
    if |nodes| == 2 {
      assert RequestedBytes(nodes[1..]) == nodes[1].bytes by { assert nodes[1..][1..] == []; }
    } else if |nodes| == 1 {
      assert nodes[1..] == [];
    }
  }

  /**
   * `init_pool`: the kept memory first when a record of it can be read, and this kernel's
   * own memory when there is none or the kernel refuses it. Either way a record that was
   * read is removed, if that works. Every answer is the kernel's. `lookup` is how looking
   * up the configured devices went; if it failed nothing is written and nothing read.
   */
  method InitPool(memory: Word64, granule: Word64, hasPath: bool, file: File, lookup: int)
    returns (ret: int, written: seq<seq<MemoryNode>>, claimed: bool, ghost answers: seq<int>, removed: bool)
    modifies file
    ensures lookup != 0 ==> ret == lookup && written == [] && !claimed && file.text == old(file.text)
    ensures lookup == 0 ==> 1 <= |written| <= 2 && |answers| == |written| && ret == answers[|answers| - 1]
    ensures var claim := if hasPath then Named(old(file.text)) else None;
            lookup == 0 ==>
            && (claimed <==> claim.Some? && answers[0] == 0)
            && (claimed ==> |written| == 1)
            && (!claimed ==> written[|written| - 1] == BaselineMemory(Plus(memory, granule), None))
            && (|written| == 2 <==> claim.Some? && !claimed)
            && (claim.Some? ==> written[0] == BaselineMemory(Plus(memory, granule), claim))
            && file.text == if claim.Some? && removed then None else old(file.text)
  {
    hide BaselineMemory, Named;
    var bytes := Plus(memory, granule);
    ret, written, claimed, answers, removed := lookup, [], false, [], false;
    if ret != 0 {
      return;
    }
    if hasPath {
      var claim := Named(file.text);
      if claim.Some? {
        ret := *;
        written, answers := [BaselineMemory(bytes, claim)], [ret];
        claimed := ret == 0;
        removed := file.Remove();
      }
    }
    if !claimed {
      ret := *;
      written, answers := written + [BaselineMemory(bytes, None)], answers + [ret];
    }
  }

  /** The pool an arm asks for is within the kept claim exactly when the sizes wrap together. */
  lemma PoolFits(memory: Word64, granule: Word64)
    requires granule > 0
    ensures Plus(memory, granule) <= Want(memory, granule) <==>
            RoundUp(memory, granule) + granule < U64 || memory + granule >= U64
  {
    Rounding.MultipleBelow(Plus(memory, granule - 1), granule);
    if memory + granule > U64 { Rounding.SmallQuotient(Plus(memory, granule - 1), granule); }
  }

  /**
   * The next generation. A claim kept by a plan, recorded and read back by an arm with the
   * same memory and granule, is the whole pool: the baseline names that range alone and
   * asks the kernel for nothing more, exactly when the rounded size does not wrap on its own;
   * and the range is memory the plan found free and never offered for adoption.
   */
  lemma NextPoolIsTheClaim(p: Plan, hostCpus: seq<Word64>, ownCpus: seq<Word64>, memory: Word64)
    requires Planned(p, hostCpus, ownCpus, memory, true) && p.Recorded()
    ensures BaselineMemory(Plus(memory, p.granule), ParseClaim(ClaimText(p.Claim()))) == [Region(p.Claim())] <==>
            RoundUp(memory, p.granule) + p.granule < U64 || memory + p.granule >= U64
    ensures forall a :: p.Claim().Has(a) ==> !Covers(p.adoptable, a)
    ensures Unwrapped(p) ==> forall a :: p.Claim().Has(a) ==> Free(p.host, p.own, p.reserved, a)
  {
    hide Covers, Canonical, IsTakeable, IsCpuDifference, ClaimText, ParseClaim, Free, Want, RoundingSafe;
    var a0 :| Aligned(a0, p.memory, p.granule) && CarvedFrom(p, a0, memory);
    KeptPartitions(p.Claim(), p.adoptable, a0, Want(memory, p.granule));
    ClaimRoundTrip(p.Claim());
    PoolFits(memory, p.granule);
    if Unwrapped(p) { PlanSafe(p, hostCpus, ownCpus, memory, true); }
  }
}
