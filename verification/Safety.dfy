/** Whole-run safety of the takeover: what can be said of the effects of every run. */
module Safety {
  import opened Bytes
  import opened Options
  import opened Ranges
  import opened Plans
  import opened Effects
  import opened Devices
  import opened Machines
  import opened Operations

  /** The plan made at `q` is the one in force at `k`. */
  ghost predicate InForce(t: seq<Effect>, q: int, k: int) {
    && 0 <= q < k <= |t| && t[q].PlanMade?
    && forall r :: q < r < k ==> !IsPlanning(t[r])
  }

  /**
   * Only CPUs the machine has and this kernel does not own; only memory outside the plan's
   * claim, and all of it free unless the plan's rounding wrapped.
   */
  ghost predicate Within(cfg: OpsConfig, p: Plan, cpus: seq<Word64>, memory: seq<Range>) {
    && (forall c :: c in cpus ==> c in cfg.hostCpus && c !in cfg.ownCpus)
    && (forall a :: Covers(memory, a) ==> !p.Claim().Has(a))
    && (Unwrapped(p) ==> forall a :: Covers(memory, a) ==> Free(cfg.host, p.own, cfg.reserved, a))
  }

  /** A dump of the plan's memory succeeded in between; unless its rounding wrapped it holds all of `memory`. */
  ghost predicate OnDump(t: seq<Effect>, q: int, k: int, memory: seq<Range>)
    requires 0 <= q < k <= |t| && t[q].PlanMade?
  {
    var p := t[q].plan;
    (exists d :: q < d < k && t[d] == Dump(p.memory, 0)) && (Unwrapped(p) ==> HoldsAll(p.memory, memory))
  }

  ghost predicate HoldsAll(ranges: seq<Range>, memory: seq<Range>) {
    forall a :: Covers(memory, a) ==> Covers(ranges, a)
  }

  ghost predicate DeviceEffect(e: Effect) {
    Phase(e) >= 0 || e.RestoreNetwork?
  }

  /** Memory and CPUs are hot-added only after a fence, after the devices, and only what the plan in force found. */
  ghost predicate SafeOffer(cfg: OpsConfig, dump: bool, t: seq<Effect>, k: int)
    requires 0 <= k < |t| && t[k].Offer?
  {
    && FenceCall(0) in t[..k]
    && (forall r :: k <= r < |t| ==> !DeviceEffect(t[r]) && !t[r].FenceCall?)
    && (exists q :: InForce(t, q, k) && Within(cfg, t[q].plan, t[k].cpus, t[k].memory)
                    && (dump && t[k].memory != [] ==> OnDump(t, q, k, t[k].memory)))
  }

  /** Drivers were held off before `k` and are let go after it. */
  ghost predicate HeldOff(t: seq<Effect>, k: nat)
    requires k <= |t|
  {
    Autoprobe(false, 0) in t[..k] && LetGo(t, k)
  }

  /** What is done to devices comes in the order of the phases of one pass. */
  ghost predicate DevicesInOrder(t: seq<Effect>) {
    forall a, b :: 0 <= a < b < |t| && Phase(t[a]) >= 0 && Phase(t[b]) >= 0 ==> Phase(t[a]) <= Phase(t[b])
  }

  ghost predicate SafeTrace(cfg: OpsConfig, dump: bool, t: seq<Effect>) {
    && (forall k :: 0 <= k < |t| && t[k].Offer? ==> SafeOffer(cfg, dump, t, k))
    && (forall k :: 0 <= k < |t| && DeviceEffect(t[k]) ==> FenceCall(0) in t[..k])
    && (forall k :: 0 <= k < |t| && t[k].ClaimIommu? ==> TakenAndQuiet(t[..k], cfg.devices.foreign) && HeldOff(t, k))
    && (forall k :: 0 <= k < |t| && t[k] == Autoprobe(false, 0) ==> LetGo(t, k))
    && DevicesInOrder(t)
    && (forall k :: 0 <= k < |t| && t[k].Dump? ==> dump && FenceCall(0) in t[..k])
  }

  // ---------------------------------------------------------------- reading the layout

  lemma {:induction false} TailAt(cfg: OpsConfig, dump: bool, t: seq<Effect>, k: int)
    requires TailPart(cfg, dump, t) && 0 <= k < |t|
    ensures TailPart(cfg, dump, t[..k + 1])
    decreases |t|
  {
    if k == |t| - 1 {
      assert t[..k + 1] == t;
    } else {
      var before := t[..|t| - 1];
      TailAt(cfg, dump, before, k);
      assert before[..k + 1] == t[..k + 1];
    }
  }

  lemma TailEntry(cfg: OpsConfig, dump: bool, t: seq<Effect>, k: int)
    requires TailPart(cfg, dump, t) && 0 <= k < |t|
    ensures !DeviceEffect(t[k]) && !t[k].FenceCall?
    ensures t[k].Dump? ==> dump
    ensures t[k].Offer? ==> OfferOfPlan(t[..k], t[k], dump)
    ensures t[k].PlanMade? ==> Plausible(cfg, World(0, NoDevices, Made(t[k].plan), 0, [], 0, 0, 0))
  {
    hide OfferOfPlan, Plausible;
    TailAt(cfg, dump, t, k);
    var s := t[..k + 1];
    assert s[..|s| - 1] == t[..k] && s[|s| - 1] == t[k];
  }

  lemma {:induction false} CurrentAt(t: seq<Effect>) returns (q: int)
    requires Current(t).Some?
    ensures InForce(t, q, |t|) && t[q].plan == Current(t).value
    decreases |t|
  {
    var n := |t| - 1;
    if t[n].PlanMade? {
      q := n;
    } else {
      q := CurrentAt(t[..n]);
    }
  }

  lemma {:induction false} DumpedAt(t: seq<Effect>, q: int) returns (d: int)
    requires InForce(t, q, |t|) && Dumped(t, t[q].plan)
    ensures q < d < |t| && t[d] == Dump(t[q].plan.memory, 0)
    decreases |t|
  {
    var n := |t| - 1;
    if t[n].Dump? && t[n].ret == 0 && t[n].ranges == t[q].plan.memory {
      d := n;
    } else {
      assert q < n;
      d := DumpedAt(t[..n], q);
    }
  }

  /** A plan computed from this machine. */
  ghost predicate PlanOf(cfg: OpsConfig, p: Plan) {
    && p.host == cfg.host && p.reserved == cfg.reserved
    && Planned(p, cfg.hostCpus, cfg.ownCpus, cfg.next, cfg.hasPath)
  }

  lemma {:induction false} OnePlan(t: seq<Effect>, q: int, k: int)
    requires InForce(t, q, k)
    ensures Current(t[..k]) == Some(t[q].plan)
    decreases k
  {
    var s := t[..k];
    if k > q + 1 {
      OnePlan(t, q, k - 1);
      assert s[..|s| - 1] == t[..k - 1] && !IsPlanning(t[k - 1]);
    }
  }

  /** What a plan found is outside its claim, free, and within its own takeable memory. */
  lemma PlanWithin(cfg: OpsConfig, p: Plan)
    requires PlanOf(cfg, p)
    ensures Within(cfg, p, p.cpus, p.adoptable) && (Unwrapped(p) ==> HoldsAll(p.memory, p.adoptable))
  {
    hide Covers, Canonical, Aligned, CarvedFrom, Unwrapped;
    ClaimApart(p, cfg.hostCpus, cfg.ownCpus, cfg.next, cfg.hasPath);
    if Unwrapped(p) { PlanSafe(p, cfg.hostCpus, cfg.ownCpus, cfg.next, cfg.hasPath); }
  }

  /** An offer in the tail is of a plan computed from this machine: its memory is all that plan found, or none. */
  lemma TailPlan(cfg: OpsConfig, dump: bool, t: seq<Effect>, k: int) returns (q: int)
    requires TailPart(cfg, dump, t) && 0 <= k < |t| && t[k].Offer?
    ensures InForce(t, q, k) && PlanOf(cfg, t[q].plan)
    ensures t[k].cpus in {[], t[q].plan.cpus} && t[k].memory in {[], t[q].plan.adoptable}
  {
    hide TailPart, Planned;
    TailEntry(cfg, dump, t, k);
    q := CurrentAt(t[..k]);
    assert t[..k][q] == t[q];
    TailEntry(cfg, dump, t, q);
  }

  /** An offer in the tail is within the plan in force, and on the dump if there is to be one. */
  lemma TailOffer(cfg: OpsConfig, dump: bool, t: seq<Effect>, k: int) returns (q: int)
    requires TailPart(cfg, dump, t) && 0 <= k < |t| && t[k].Offer?
    ensures InForce(t, q, k) && Within(cfg, t[q].plan, t[k].cpus, t[k].memory)
    ensures dump && t[k].memory != [] ==> OnDump(t, q, k, t[k].memory)
  {
    hide TailPart, Within, HoldsAll, PlanOf, Unwrapped;
    q := TailPlan(cfg, dump, t, k);
    var p := t[q].plan;
    PlanWithin(cfg, p);
    PartWithin(cfg, p, t[k].cpus, t[k].memory);
    if dump && t[k].memory != [] {
      TailEntry(cfg, dump, t, k);
      OnePlan(t, q, k);
      var d := DumpedAt(t[..k], q);
      assert t[d] == t[..k][d];
    }
  }

  lemma PartWithin(cfg: OpsConfig, p: Plan, cpus: seq<Word64>, memory: seq<Range>)
    requires Within(cfg, p, p.cpus, p.adoptable)
    requires (cpus == [] || cpus == p.cpus) && (memory == [] || memory == p.adoptable)
    ensures Within(cfg, p, cpus, memory)
  {
  }

  // ---------------------------------------------------------------- from layout to safety

  lemma BeforeTail(cfg: OpsConfig, dump: bool, t: seq<Effect>, i: int, j: int, k: int)
    requires Layout(cfg, dump, t, i, j) && 0 <= k < j
    ensures !t[k].Offer? && !t[k].Dump? && !t[k].PlanMade?
    ensures k < i ==> t[k].FenceCall?
    ensures i <= k && t[k].ClaimIommu? ==>
              TakenAndQuiet(t[i..k], cfg.devices.foreign) && Autoprobe(false, 0) in t[i..k] && LetGo(t, k)
    ensures t[k] == Autoprobe(false, 0) ==> LetGo(t, k)
  {
    hide TailPart, FencePart, PassPart, TakenAndQuiet, LetGo;
    if k < i {
      FencePartAt(t[..i], k);
    } else {
      PassPartAt(cfg, t[i..j], k - i);
      assert t[i..j][..k - i] == t[i..k];
      if LetGo(t[i..j], k - i) { LetGoShift(t[i..j], t, i, k - i); }
    }
  }

  lemma LetGoShift(s: seq<Effect>, t: seq<Effect>, at: nat, k: nat)
    requires at + |s| <= |t| && s == t[at..at + |s|] && LetGo(s, k)
    ensures LetGo(t, at + k)
  {
    var r :| k < r < |s| && s[r].Autoprobe? && s[r].on;
    assert t[at + r] == s[r];
  }

  /** Two device effects of a laid-out trace are both of its one pass. */
  lemma LayoutOrder(cfg: OpsConfig, dump: bool, t: seq<Effect>, i: int, j: int, a: int, b: int)
    requires Layout(cfg, dump, t, i, j) && 0 <= a < b < |t| && Phase(t[a]) >= 0 && Phase(t[b]) >= 0
    ensures Phase(t[a]) <= Phase(t[b])
  {
    OnlyInPass(cfg, dump, t, i, j, a);
    OnlyInPass(cfg, dump, t, i, j, b);
    hide TailPart, FencePart;
    assert t[i..j][a - i] == t[a] && t[i..j][b - i] == t[b];
    PassPartOrder(cfg, t[i..j], a - i, b - i);
  }

  lemma LayoutInOrder(cfg: OpsConfig, dump: bool, t: seq<Effect>, i: int, j: int)
    requires Layout(cfg, dump, t, i, j)
    ensures DevicesInOrder(t)
  {
    hide Layout, Phase;
    forall a, b | 0 <= a < b < |t| && Phase(t[a]) >= 0 && Phase(t[b]) >= 0 ensures Phase(t[a]) <= Phase(t[b]) {
      LayoutOrder(cfg, dump, t, i, j, a, b);
    }
  }

  lemma OnlyInPass(cfg: OpsConfig, dump: bool, t: seq<Effect>, i: int, j: int, k: int)
    requires Layout(cfg, dump, t, i, j) && 0 <= k < |t| && Phase(t[k]) >= 0
    ensures i <= k < j
  {
    hide TailPart, FencePart, PassPart;
    if k < j {
      BeforeTail(cfg, dump, t, i, j, k);
    } else {
      assert t[j..][k - j] == t[k];
      TailEntry(cfg, dump, t[j..], k - j);
    }
  }

  lemma PassPartOrder(cfg: OpsConfig, t: seq<Effect>, a: int, b: int)
    requires PassPart(cfg, t) && 0 <= a < b < |t| && Phase(t[a]) >= 0 && Phase(t[b]) >= 0
    ensures Phase(t[a]) <= Phase(t[b])
  {
    hide TakenAndQuiet, LetGo;
    var core := if OrderedPass(cfg.devices, t) then t else t[..|t| - 1];
    assert core[a] == t[a] && core[b] == t[b];
  }

  lemma FencePartAt(t: seq<Effect>, k: int)
    requires FencePart(t) && 0 <= k < |t|
    ensures t[k].FenceCall?
  {
    if k < |t| - 1 { assert t[..|t| - 1][k] == t[k]; }
  }

  lemma PassPartAt(cfg: OpsConfig, t: seq<Effect>, k: int)
    requires PassPart(cfg, t) && 0 <= k < |t|
    ensures DeviceEffect(t[k]) && !t[k].FenceCall?
    ensures t[k].ClaimIommu? ==> TakenAndQuiet(t[..k], cfg.devices.foreign) && HeldOff(t, k)
    ensures t[k] == Autoprobe(false, 0) ==> LetGo(t, k)
  {
    hide TakenAndQuiet, LetGo;
    var core := if OrderedPass(cfg.devices, t) then t else t[..|t| - 1];
    if k < |core| {
      assert core[k] == t[k] && core[..k] == t[..k] && core == t[0..0 + |core|];
      if t[k].ClaimIommu? { assert t[..k][0] == core[0]; }
      if LetGo(core, k) { LetGoShift(core, t, 0, k); }
    }
  }

  lemma QuietMore(s: seq<Effect>, t: seq<Effect>, foreign: seq<DeviceId>)
    requires TakenAndQuiet(s, foreign) && forall e :: e in s ==> e in t
    ensures TakenAndQuiet(t, foreign)
  {
  }

  lemma FencedBefore(cfg: OpsConfig, dump: bool, t: seq<Effect>, i: int, j: int, k: int)
    requires Layout(cfg, dump, t, i, j) && i <= k <= |t|
    ensures FenceCall(0) in t[..k]
  {
    assert t[..i][i - 1] == FenceCall(0);
    assert t[..k][i - 1] == FenceCall(0);
  }

  lemma LayoutOffer(cfg: OpsConfig, dump: bool, t: seq<Effect>, i: int, j: int, k: int)
    requires Layout(cfg, dump, t, i, j) && 0 <= k < |t| && t[k].Offer?
    ensures SafeOffer(cfg, dump, t, k)
  {
    hide Layout, TailPart, Within, HoldsAll, Unwrapped;
    if k < j { BeforeTail(cfg, dump, t, i, j, k); }
    LayoutTail(cfg, dump, t, i, j);
    FencedBefore(cfg, dump, t, i, j, k);
    var tail := t[j..];
    forall r | k <= r < |t| ensures !DeviceEffect(t[r]) && !t[r].FenceCall? {
      TailEntry(cfg, dump, tail, r - j);
      assert tail[r - j] == t[r];
    }
    assert tail[k - j] == t[k];
    var q := TailOffer(cfg, dump, tail, k - j);
    assert InForce(t, q + j, k) by {
      forall r | q + j < r < k ensures !IsPlanning(t[r]) { assert tail[r - j] == t[r]; }
    }
    if dump && t[k].memory != [] {
      var d :| q < d < k - j && tail[d] == Dump(tail[q].plan.memory, 0);
      assert t[d + j] == tail[d];
    }
  }

  /** Wherever an offer stands, the plan in force is one computed from this machine, and the memory is what it found. */
  lemma OfferPlan(cfg: OpsConfig, dump: bool, t: seq<Effect>, i: int, j: int, k: int) returns (q: int)
    requires Layout(cfg, dump, t, i, j) && 0 <= k < |t| && t[k].Offer?
    ensures InForce(t, q, k) && PlanOf(cfg, t[q].plan) && t[k].memory in {[], t[q].plan.adoptable}
  {
    hide Layout, TailPart, PlanOf;
    if k < j { BeforeTail(cfg, dump, t, i, j, k); }
    LayoutTail(cfg, dump, t, i, j);
    var tail := t[j..];
    assert tail[k - j] == t[k];
    q := TailPlan(cfg, dump, tail, k - j);
    forall r | q + j < r < k ensures !IsPlanning(t[r]) { assert tail[r - j] == t[r]; }
    q := q + j;
  }

  lemma LayoutTail(cfg: OpsConfig, dump: bool, t: seq<Effect>, i: int, j: int)
    requires Layout(cfg, dump, t, i, j)
    ensures 0 < i <= j <= |t| && TailPart(cfg, dump, t[j..])
  {
  }

  lemma LayoutRest(cfg: OpsConfig, dump: bool, t: seq<Effect>, i: int, j: int, k: int)
    requires Layout(cfg, dump, t, i, j) && 0 <= k < |t|
    ensures DeviceEffect(t[k]) ==> FenceCall(0) in t[..k]
    ensures t[k].Dump? ==> dump && FenceCall(0) in t[..k]
    ensures t[k].ClaimIommu? ==> TakenAndQuiet(t[..k], cfg.devices.foreign) && HeldOff(t, k)
    ensures t[k] == Autoprobe(false, 0) ==> LetGo(t, k)
  {
    hide Layout, TailPart, TakenAndQuiet, LetGo;
    LayoutTail(cfg, dump, t, i, j);
    if k < j {
      BeforeTail(cfg, dump, t, i, j, k);
    } else {
      TailEntry(cfg, dump, t[j..], k - j);
      assert t[j..][k - j] == t[k];
    }
    if k >= i {
      FencedBefore(cfg, dump, t, i, j, k);
      if t[k].ClaimIommu? {
        assert t[..k] == t[..i] + t[i..k];
        QuietMore(t[i..k], t[..k], cfg.devices.foreign);
      }
    }
  }

  /** Between events, whatever the machine went through, the trace so far is safe. */
  lemma SoundIsSafe(s: System, cfg: OpsConfig)
    requires Sound(s, cfg)
    ensures SafeTrace(cfg, s.ops.dump, s.ops.trace)
    ensures !s.ops.dump ==> s.ops.preserved == []
  {
    var t := s.ops.trace;
    if s.machine.state in {Fenced, TakenOver} {
      var i, j :| Underway(cfg, s.ops, i, j);
      hide Layout, SafeOffer, TakenAndQuiet, HeldOff, LetGo, DevicesInOrder;
      LayoutInOrder(cfg, s.ops.dump, t, i, j);
      forall k | 0 <= k < |t| && t[k].Offer? ensures SafeOffer(cfg, s.ops.dump, t, k) {
        LayoutOffer(cfg, s.ops.dump, t, i, j, k);
      }
      forall k | 0 <= k < |t|
        ensures DeviceEffect(t[k]) ==> FenceCall(0) in t[..k]
        ensures t[k].Dump? ==> s.ops.dump && FenceCall(0) in t[..k]
        ensures t[k].ClaimIommu? ==> TakenAndQuiet(t[..k], cfg.devices.foreign) && HeldOff(t, k)
        ensures t[k] == Autoprobe(false, 0) ==> LetGo(t, k)
      {
        LayoutRest(cfg, s.ops.dump, t, i, j, k);
      }
    }
  }

  /** For every sequence of events and every answer of the kernel and the allocator, the effects are safe. */
  lemma RunSafe(tk: Config, cfg: OpsConfig, dump: bool, network: bool, inputs: seq<(Event, World)>)
    requires PlausibleInputs(cfg, inputs)
    ensures var s := SystemRun(tk, cfg, dump, network, inputs); Sound(s, cfg) && SafeTrace(cfg, dump, s.ops.trace)
  {
    hide SafeTrace, Sound;
    RunSound(tk, cfg, dump, network, inputs);
    SoundIsSafe(SystemRun(tk, cfg, dump, network, inputs), cfg);
  }
}
