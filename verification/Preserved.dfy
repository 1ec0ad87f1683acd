/** From the run to the file: memory that joins after a dump can be read from that dump. */
module Preserved {
  import opened Bytes
  import opened Ranges
  import opened Vmcores
  import opened Dumps
  import opened Plans
  import opened Effects
  import opened Machines
  import opened Operations
  import opened Safety

  /** One of the first `n` loads of the file shows address `a` as `b`. */
  ghost predicate Shown(file: seq<Byte>, n: nat, a: nat, b: Byte) {
    exists i: nat :: i < n && LoadShows(file, i, a, b)
  }

  /** Whatever memory and notes there were, a dump of `ranges` shows address `a` as it was. */
  ghost predicate OnFile(ranges: seq<Range>, a: nat) {
    forall src: Source, vi: VmcoreInfo, mapped: nat -> bool, machine: Word32 ::
      Dumpable(src, ranges, vi, mapped) ==>
        Shown(DumpFile(src, ranges, vi, mapped, machine), |ranges|, a, src.byte(a))
  }

  lemma CoveredIsOnFile(ranges: seq<Range>, a: nat)
    requires Covers(ranges, a)
    ensures OnFile(ranges, a)
  {
    hide LoadShows, Dumpable, DumpFile;
    var i: nat :| i < |ranges| && ranges[i].Has(a);
    forall src: Source, vi: VmcoreInfo, mapped: nat -> bool, machine: Word32 | Dumpable(src, ranges, vi, mapped)
      ensures Shown(DumpFile(src, ranges, vi, mapped, machine), |ranges|, a, src.byte(a))
    {
      DumpShows(src, ranges, vi, mapped, machine, i, a);
    }
  }

  /**
   * With a dump to write, every byte of memory that any run hot-adds is on a dump that
   * succeeded before, where a reader of the file finds it, unless the rounding of the plan
   * in force wrapped.
   */
  lemma AddedIsOnFile(tk: Config, cfg: OpsConfig, network: bool, inputs: seq<(Event, World)>, k: int, a: nat)
    returns (q: int, d: int)
    requires PlausibleInputs(cfg, inputs)
    requires var t := SystemRun(tk, cfg, true, network, inputs).ops.trace;
             0 <= k < |t| && t[k].Offer? && Covers(t[k].memory, a)
    ensures var t := SystemRun(tk, cfg, true, network, inputs).ops.trace;
            && InForce(t, q, k) && q < d < k && t[d] == Dump(t[q].plan.memory, 0)
            && (Unwrapped(t[q].plan) ==> OnFile(t[d].ranges, a))
  {
    hide SystemRun, Sound, Within, Unwrapped, OnFile;
    RunSafe(tk, cfg, true, network, inputs);
    var t := SystemRun(tk, cfg, true, network, inputs).ops.trace;
    assert SafeOffer(cfg, true, t, k);
    q :| InForce(t, q, k) && Within(cfg, t[q].plan, t[k].cpus, t[k].memory) && OnDump(t, q, k, t[k].memory);
    d :| q < d < k && t[d] == Dump(t[q].plan.memory, 0);
    if Unwrapped(t[q].plan) { CoveredIsOnFile(t[d].ranges, a); }
  }
}
