/** The effects kmorphd has on the machine, in the order it causes them. */
module Effects {
  import opened Bytes
  import opened Ranges
  import opened Plans

  type DeviceId = string

  /** `enum reset_outcome`: the device was reset, its DMA was stopped, or neither. */
  datatype Outcome = WasReset | Quiesced | Live

  datatype Effect =
    | FenceCall(ret: int)
    | Autoprobe(on: bool, ret: int)
    | AdoptDevice(id: DeviceId, ret: int)
    | Settle(id: DeviceId, outcome: Outcome)
    | ClaimIommu(base: Word64, ret: int)
    | ProbeDriver(id: DeviceId, ret: int)
    | RestoreNetwork
    | PlanMade(plan: Plan)              // own RAM read, memory and CPUs chosen, the pool claim recorded or not
    | PlanFailed(ret: int, attempt: Attempt)
    | Offer(cpus: seq<Word64>, memory: seq<Range>, ret: int)
    | Dump(ranges: seq<Range>, ret: int)
}
