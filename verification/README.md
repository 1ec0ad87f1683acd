# kmorph, verified

A Dafny 4.11 model of kmorph, which moves a machine from one kernel to another: a successor
kernel watches its predecessor, fences it when it dies or hands over, adopts its devices,
CPUs and memory, and writes a vmcore of what it left behind. The files model five parts of
the user-space code and prove what they promise for every input, every outcome of the calls
they make, and every run.

| part | files | main results |
|---|---|---|
| takeover | Takeover, Effects, Devices, Ops, Safety, Claims, Passes, Daemon, Retry, Completion, Preserved, Counterexamples, Kmorphd | the calls of every run form one language; nothing is hot-added before a successful fence and a finished device pass, and only free memory is; when what is hot-added meets the recorded pool claim; a completed takeover has added all it planned or still holds it back, and what joined after a dump can be read from the dump; when a daemon may fence, and when it retries; all of this of the objects themselves, after any number of wakeups |
| memory | Ranges, RangeSet, Rounding, Plan, Record, Pool | an in-place sorted array refines sets of 64-bit addresses, failures included; the adoption plan is exact and maximal, exactly when no rounding wraps; what a record of the pool claim reads as, wherever its writing stopped |
| device trees | Bytes, FdtFormat, FdtStrings, FdtWriter, FdtBuild, FdtReader, Nodes, HostTree | what is emitted is what is scanned and iterated, whatever the buffer size, and exactly which properties a lookup finds; the host tree comes back in any directory order |
| vmcore | Vmcore, Elf, Dump | the seekable and the streamed file are the same bytes, for every pattern of short writes; the note segment loses no record |
| codecs | Option, Errno, Scan, Cpio, Request, Netsnap | round trips of the archive, the request framing and the network identity |

`dafny verify dfyconfig.toml` checks everything. Objects the code updates in place are
classes; each of their methods is tied to a function on values, and the theorems are about
those functions. Memory allocation, system calls, other processes and the kernel are
outcomes: a method draws them with `*` or takes them as a parameter, and a theorem quantifies
over all of them. 64-bit and 32-bit wrap-around is written out.

## Where the code and its promises differ

- Rounding a range up to a granule can wrap. `RoundingExact`, `RoundingInside`,
  `PlanExactIff` and `PlanSafeIff` give the exact condition under which the result is still
  right, `RoundingWrapsNearTop` a set on which it is not.
- The fence counter has 32 bits. `FencesBounded` shows that retries are bounded if and only
  if the configured number is below 2^32 - 1.
- README.md:473-476 of the repository has a failed fence retried on the next probe, and
  kmorphd/takeover.c:27 a failed adoption on a later event. The machine does that, but the
  daemon starts no probe once it left the watching states. `FenceRetryIff` and
  `AdoptRetryIff` say exactly when a continuation of a run retries: a probe must still be
  pending, and for a fence the retries must not be used up. Otherwise nothing ever happens
  again (`StuckForever`); `FenceNotRetried` and `AdoptNotRetried` are such runs, and
  `AtMostOneLateResult` bounds what is left.
- Memory recorded for the next pool can be hot-added: a later plan that cannot write its
  record claims nothing. `RunMeetsRecord` says for every offer of every run exactly when it
  stays clear of what the record names at that moment, a record cut short included, and
  `RecordedIsOffered` is a run of the daemon in which it does not.
- When growing a cpio archive fails, the recorded capacity is left above that of the buffer.
  `Reserve` says exactly when a later grant is backed by the buffer, and `ReserveTwice` that
  the very same request is then granted without room. The code's callers stop at `ENOMEM`.
- Running out of memory before the device pass marks the devices as tried all the same:
  `DevicesIffGranted` shows that a run tries a device if and only if its one pass was granted
  its list, `DevicesNotTried` is a takeover that completes without any.
- libfdt looks a property up only before the first subnode. `AllFoundIff` gives the exact
  condition under which every property of a node is found, `LatePropertyLost` a tree in which
  one is not. The trees kmorph writes have their properties first.
- The room test for a new property name is unsigned (lib/fdt/fdt_sw.c:259). `RoomTest` says
  that it is right if and only if the name is not longer than what the buffer has before the
  strings, `LongNameLeaves` shows a 64-byte buffer and a name of 64 characters that pass it,
  and `ShortNamesStay` that names of up to 63 characters, which is all kmorph uses, never do.
- An archive name of 255 bytes is written but not found by the test reader (`EntryRead`).

## Model

| member | source | states |
|---|---|---|
| Ranges.CanonicalUnique | include/kmorph/ranges.h:13-18 | two sorted, disjoint, non-adjacent sets with the same addresses are the same ranges |
| Ranges.AddsCommute | lib/ranges.c:36-57 | adding two ranges in either order gives the same set, range for range |
| Ranges.SizeSumCounts | lib/ranges.c:154-162 | the sizes of a canonical set add up to the number of addresses in it |
| RangeSets.RangeSet.Insert | lib/ranges.c:12-28 | opens a slot and keeps the others in order; fails only when full and out of memory, and then changes nothing |
| RangeSets.RangeSet.Remove | lib/ranges.c:30-34 | closes one slot and keeps the others in order |
| RangeSets.RangeSet.Add | lib/ranges.c:36-57 | set union in canonical form; `EINVAL` exactly for empty or wrapping ranges; out of memory only when full; any failure leaves the set as it was |
| RangeSets.RangeSet.Subtract | lib/ranges.c:59-95 | set difference in canonical form; `EINVAL` exactly for empty or wrapping ranges; any failure leaves the set as it was, and one that splits nothing cannot fail |
| RangeSets.RangeSet.SubtractSet | lib/ranges.c:97-108 | removes exactly the addresses of the other set |
| RangeSets.RangeSet.Copy | lib/ranges.c:110-122 | adding range by range reproduces the very ranges copied |
| RangeSets.RangeSet.AddAligned | lib/ranges.c:124-142 | adds exactly what the 64-bit rounding of each range gives; `EINVAL` exactly for block 0 |
| RangeSets.RangeSet.Contains | lib/ranges.c:144-152 | some range holds it, in 64-bit arithmetic; for a non-empty range that does not wrap, every address of it is in the set |
| RangeSets.RangeSet.Total | lib/ranges.c:154-162 | the number of addresses in the set, which never overflows |
| Rounding.RoundingExact | lib/ranges.c:130-140 | rounding gives precisely the blocks wholly inside the set if and only if no round-up wraps over an address outside it |
| Rounding.RoundingInside | lib/ranges.c:130-140 | under the same condition and no other, rounding adds no address from outside the set |
| Rounding.RoundingSafeBelowTop | lib/ranges.c:130-140 | sets ending more than a block below 2^64 are rounded exactly |
| Rounding.RoundingWrapsNearTop | lib/ranges.c:131 | a set whose rounding adds address 0, which is not in it |
| Plans.CpuListDifference | lib/takeable.c:7-20 | the ids of one list outside the other, each once, in order of first appearance |
| Plans.TakeableCompute | lib/takeable.c:22-41 | RAM minus own minus reserved, and the CPUs not owned; `ENOENT` only when one of them is empty; nothing is left allocated on failure |
| Plans.FindLargest | kmorphd/ops.c:124-126 | a range no other exceeds in size |
| Plans.KeepForPool | kmorphd/ops.c:113-144 | the claim is the top of a largest range and leaves exactly the rest; recording it is tried exactly when wanted and possible; a claim not recorded whole takes nothing, and the record file holds what was written of it |
| Plans.NoSplitAtTop | kmorphd/ops.c:132-143 | taking the top of a range splits no range, so it needs no memory |
| Plans.PlanAdoption | kmorphd/ops.c:146-181 | on success memory, CPUs, adoptable set and claim are the takeable set, its rounding, and the rounding less the claim |
| Plans.PlannedIsRounded | kmorphd/ops.c:146-181 | adoptable memory and claim together are the rounding of the free memory |
| Plans.PlanExact | kmorphd/ops.c:113-181 | adoptable memory and claim partition the granules made of free memory only; both are whole granules if and only if the size claimed is a multiple of the granule |
| Plans.WantIsMultiple | kmorphd/ops.c:113-123 | the size claimed is a multiple of the granule if and only if adding the last granule does not wrap, or the granule divides 2^64 |
| Plans.ClaimApart | kmorphd/ops.c:113-144 | the claim is never adoptable, whatever wraps |
| Plans.PlanExactIff | kmorphd/ops.c:146-181 | they cover exactly those granules if and only if no rounding wraps over an address that is not free |
| Plans.BelowTopUnwrapped | lib/ranges.c:130-140 | no plan wraps on a machine without RAM in the top granule of the address space |
| Plans.PlanSafe | kmorphd/ops.c:146-181 | nothing but RAM that is neither own nor reserved is adoptable or claimed, and nothing is both |
| Plans.PlanSafeIff | kmorphd/ops.c:146-181 | the plan stays inside free memory under that same condition and no other |
| Records.File.Write | lib/file.c:97-120 | after any pattern of short writes the file holds all, the part written before the failure, or, if it could not be opened, what it held |
| Records.ClaimRoundTrip | lib/memblock.c:44-64 | the recorded claim reads back as it was written, and an empty one as none |
| Records.CutReads | lib/memblock.c:44-64 | a record cut short names a range if and only if a digit of a non-zero size was written, and then one with the same base and no larger size |
| Pools.BaselineSuffices | lib/dt.c:314-334 | the baseline asks for exactly the pool, or for the claim where that is larger |
| Pools.InitPool | kmorph/arm.c:160-198 | without the configured devices nothing is done; else the claim is tried first if one is readable, and any failure falls back to one baseline without it; the record is removed after the attempt, if that works |
| Pools.NextPoolIsTheClaim | kmorph/arm.c:170-188 | with the same memory and granule the next baseline is the kept claim alone if and only if the rounded size does not wrap on its own; the claim was never adoptable, and is free unless the rounding of the plan wrapped |
| Machines.RunLanguage | kmorphd/takeover.c:28-90 | calls are failed fences, at most one successful fence, failed adopts, at most one successful adopt, then one preserve and a reap if and only if it succeeded; the state tells how far along |
| Machines.RunCounted | kmorphd/takeover.c:78-82 | while the counter cannot wrap it counts the fences, which stay within the retries plus one |
| Machines.StubbornFences | kmorphd/takeover.c:78-82 | with 2^32 - 1 retries any number of fences is reached |
| Machines.FencesBounded | kmorphd/takeover.c:78-82 | every run has at most retries plus one fences if and only if the retries are below 2^32 - 1 |
| Machines.WatchesUntilTriggered | kmorphd/takeover.c:50-69 | a run still watches exactly until enough silent probes since the last alive one, or a request while armed |
| Machines.NeverWatchesAgain | kmorphd/takeover.c:71-90 | states only move forward, calls are only added, and the taken-over state never changes |
| Devices.ResetDevices | kmorphd/ops.c:237-271 | whichever forks fail, each outcome is counted as often as it was reported and the counts sum to the devices |
| Devices.CountsAddUp | kmorphd/ops.c:237-271 | every device has exactly one outcome |
| Devices.NoneLive | kmorphd/ops.c:342-344 | the live count is zero exactly when no device was left live |
| Devices.ClaimIommus | kmorphd/ops.c:290-311 | claims every unit in order if all devices are quiet and none otherwise |
| Devices.AdoptEach | kmorphd/ops.c:328-334 | every foreign device is tried in order; reports the first error and the devices adopted |
| Devices.AdoptDevices | kmorphd/ops.c:313-358 | the whole device pass, or nothing at all without memory for its list |
| Devices.PassInOrder | kmorphd/ops.c:313-358 | autoprobe off, adoptions, resets, claims, autoprobe on and driver probes come in that order |
| Devices.ClaimsOnlyWhenQuiet | kmorphd/ops.c:290-352 | an IOMMU claim happens only after every foreign device was adopted and then reset or quiesced, and between autoprobe off and on |
| Devices.PassTriesAll | kmorphd/ops.c:328-334 | every foreign device is tried, whatever happened to the others |
| Operations.AdoptKeeps | kmorphd/ops.c:385-408 | an adopt in any outcome keeps the trace in its layout, and on success holds back exactly the planned memory if a dump is due |
| Operations.PreserveKeeps | kmorphd/ops.c:410-429 | a preserve changes nothing but the trace, and if it succeeds with memory held back the dump of the plan is on it |
| Operations.ReapKeeps | kmorphd/ops.c:431-442 | a reap after a successful preserve keeps the layout: it offers only dumped memory |
| Operations.AdvanceSound | kmorphd/takeover.c:71-90 | the invariant tying the machine's state to the trace of effects survives every event with every outcome |
| Operations.RunSound | kmorphd/takeover.c:71-90 | so it holds after every sequence of events with every answer, repeated failures of any operation included |
| Operations.WatchingRun | kmorphd/takeover.c:50-69 | a run that still watches has touched nothing and is the same whatever is configured |
| Safety.LayoutOffer | kmorphd/ops.c:385-442 | every hot-add of a laid-out trace is safe |
| Devices.HeldOffIsLetGo | kmorphd/ops.c:313-358 | drivers that were held off are let go again in the same pass |
| Safety.SoundIsSafe | kmorphd/ops.c:385-442 | every hot-add comes after a successful fence and after the last device effect, offers only CPUs not owned and memory outside the claim, and with a dump due only after the plan's memory was dumped; unless the rounding of that plan wrapped, the memory is free and all on the dump; over the whole run device effects come in the order of one pass, an IOMMU is claimed only with all devices taken and quiet and between holding drivers off and letting them go |
| Safety.RunSafe | kmorphd/takeover.c:28-90 | that holds for every sequence of events and every answer of the kernel and the allocator |
| Claims.PlanMeetsRecord | kmorphd/ops.c:113-144 | what a plan makes adoptable is disjoint from the range the record then names if and only if the record was written whole, or cut before it names a range, or kept and names no memory the plan could take |
| Claims.RunMeetsRecord | kmorphd/ops.c:113-181 | for every offer of memory in every run, against the record at that moment, the same holds of the plan in force |
| Passes.PassAdopts | kmorphd/ops.c:313-358 | a device pass tries a device if and only if there is one and its list was granted |
| Passes.DevicesIffGranted | kmorphd/ops.c:385-398 | over every run, devices are tried if and only if the one pass made was granted its list and there are any |
| Daemons.RunKeeps | kmorphd/main.c:141-217 | after every sequence of wakeups the daemon's state agrees with what it saw |
| Daemons.DaemonSafe | kmorphd/main.c:141-337 | every hot-add, device effect, IOMMU claim and dump of every daemon run is safe |
| Daemons.DaemonIsRun | kmorphd/main.c:141-337 | every daemon run, its handovers and network requests included, leads the machine and its operations where a run of the two alone leads |
| Daemons.DaemonEvidence | kmorphd/main.c:141-217 | the daemon leaves the watching states, and fences, exactly when enough silent probes since the last alive one or an accepted handover justify it; after a silent result it is not armed |
| Daemons.HandoverNeverDumps | kmorphd/main.c:317-337 | a run that recorded a handover writes no dump and holds no memory back |
| Daemons.AtMostOneLateResult | kmorphd/main.c:171-207 | at most one probe result arrives after the watching states, so at most two fences are tried |
| Retries.StuckForever | kmorphd/main.c:171-207 | once watching is over and no probe is pending, no wakeup changes anything any more |
| Retries.FenceRetryIff | kmorphd/takeover.c:78-82 | some continuation fences again if and only if a probe is pending and the retries are not used up |
| Retries.AdoptRetryIff | kmorphd/takeover.c:27-36 | some continuation adopts again if and only if a probe is pending |
| Counterexamples.FenceNotRetried | kmorphd/main.c:171-198 | a run that ends in a failed fence with retries left, and no continuation fences again |
| Counterexamples.AdoptNotRetried | kmorphd/takeover.c:27-36 | a run that ends fenced with a failed adopt, and no continuation adopts again |
| Counterexamples.DevicesNotTried | kmorphd/ops.c:385-398 | a run that completes without having tried any device, whatever devices there are |
| Counterexamples.RecordedIsOffered | kmorphd/ops.c:132-140 | a daemon run whose second offer covers an address of the claim its first plan recorded |
| Completion.ContinuedCompletes | kmorphd/ops.c:385-442 | a successful adopt and what follows it leave all planned CPUs added, and all planned memory added or held back whole; memory added after a dump is on the dump |
| Completion.DaemonCompletes | kmorphd/takeover.c:28-36 | every daemon run that has taken over is in that state, however its dump and reap went |
| Preserved.AddedIsOnFile | kmorphd/ops.c:385-442 | with a dump to write, every byte of memory any run hot-adds stands on a dump that succeeded before, at the place in the file that a load of it says, unless the rounding of the plan wrapped |
| Kmorphd.Ops.Fence | kmorphd/ops.c:90-99 | the fence and its result are on the trace |
| Kmorphd.Ops.PlanAdoption | kmorphd/ops.c:146-181 | plans from scratch; the plan in force is the one made, or none after a failure; the record file agrees with the trace |
| Kmorphd.Ops.TakeDevices | kmorphd/ops.c:391-397 | the device pass runs once in the daemon's life |
| Kmorphd.Ops.Adopt | kmorphd/ops.c:385-408 | devices, plan, held-back copy and offer as the value-level adopt |
| Kmorphd.Ops.Preserve | kmorphd/ops.c:410-429 | dumps exactly when a dump is due and memory is held back |
| Kmorphd.Ops.Reap | kmorphd/ops.c:431-442 | offers what was held back and forgets it when that worked |
| Kmorphd.Takeover.ContinueTakeover | kmorphd/takeover.c:28-36 | adopt, preserve, reap and the state they lead to |
| Kmorphd.Takeover.BeginTakeover | kmorphd/takeover.c:38-48 | fence, count, and go on if it worked |
| Kmorphd.Takeover.HandleWatching | kmorphd/takeover.c:50-69 | one event while watching, on machine and operations together |
| Kmorphd.Takeover.Handle | kmorphd/takeover.c:71-90 | one event in any state, on machine and operations together |
| Kmorphd.Process.DeliverProbe | kmorphd/main.c:141-161 | classifies, notes and acts on one probe result |
| Kmorphd.Process.OnTick | kmorphd/main.c:171-198 | times out a pending probe, then starts a new one, only while watching |
| Kmorphd.Process.OnProbeReady | kmorphd/main.c:200-207 | delivers the result of the pending probe |
| Kmorphd.Process.OnHandover | kmorphd/main.c:209-217 | accepted exactly when armed and last seen alive; then no dump is due and a takeover begins |
| Kmorphd.Process.OnNetwork | kmorphd/main.c:222-240 | an identity is kept exactly when well formed and the predecessor is still watched |
| Kmorphd.ProcessSafe | kmorphd/main.c:141-337 | whatever woke a process and however often, its effects are safe, it watches exactly until a sighting justified a fence, it dumps only as configured and not handed over, a takeover it calls complete is, and the record file is what its plans wrote |
| Elf.NotesLen | lib/elfcore.c:19-37 | the longest prefix of whole note records, and nothing after it starts one |
| Elf.SegmentRecords | lib/elfcore.c:19-37 | concatenated trimmed buffers read as the records of all buffers in order |
| Elf.OffsetsLaid | lib/elfcore.c:95-110 | loads are page aligned, in order, disjoint and end at the total |
| Elf.TotalExact | lib/elfcore.c:95-110 | the total is right if and only if the file size fits 64 bits |
| Elf.PhdrRoundTrip | lib/elfcore.c:83-107 | every field of an encoded program header reads back |
| Elf.Layout | lib/elfcore.c:56-113 | fills in exactly the core header and the offsets; `E2BIG` exactly for too many headers |
| Elf.NoteSegmentReads | lib/elfcore.c:82-93 | read from the header bytes alone, the note segment parses as the records of every buffer in order |
| Elf.LoadsRead | lib/elfcore.c:95-108 | read from the header bytes alone, load i gives range i and its place in the file |
| Elf.LoadsLaid | lib/elfcore.c:95-110 | the loads of a core lie page aligned, in order and disjoint between header and total |
| Dumps.Sink.WriteAll | lib/dump.c:70-90 | however writes are cut short, the whole buffer ends up in the file |
| Dumps.Sink.Write | lib/dump.c:92-108 | both kinds of sink then hold the image up to the end of the buffer |
| Dumps.Sink.WriteChunk | lib/dump.c:116-136 | skipping zero pages and writing runs of others leaves the same bytes |
| Dumps.Sink.CopyRange | lib/dump.c:138-156 | chunk by chunk the range's memory is in the image |
| Dumps.WriteCore | lib/dump.c:281-296 | seekable or not, the finished file is header, memory at its offsets and zeros elsewhere |
| Dumps.ReadNote | lib/dump.c:158-180 | exactly the whole records of a buffer that is present, not oversized, within reach and mapped, and nothing otherwise |
| Dumps.CollectNotes | lib/dump.c:182-215 | exactly the notes of all buffers that have any, the CPUs' in order and then VMCOREINFO, and how many are the CPUs' |
| Dumps.NotesWhole | lib/dump.c:158-215 | every note is a whole number of records, and together they stay within the buffers' limit |
| Dumps.DumpVmcore | lib/dump.c:249-305 | on success the file is the image of memory, ranges and notes, the same for every sink and every pattern of writes; if no call of the kernel or the allocator fails, it succeeds exactly when there are at most 65534 ranges and all lie within the memory |
| Dumps.LowerHalfDumpable | lib/elfcore.c:95-110 | the size of the dump fits 64 bits for every range set in the lower half of the address space |
| Dumps.DumpShows | lib/dump.c:281-296 | read from the file alone, load i shows every byte of range i where it says |
| Dumps.DumpNotes | lib/dump.c:182-215 | read from the file alone, the note segment holds every record of every note that could be read |
| FdtFormat.FdtNextTag | lib/fdt/fdt.c:162-221 | the tag at an offset and where the next one is, or the error |
| FdtFormat.ItemRead | lib/fdt/fdt.c:162-221 | at an encoded item the walk finds that item and steps over exactly its bytes |
| FdtFormat.ScanBlock | lib/fdt/fdt.c:162-221 | scanning a finished block yields exactly the items written |
| FdtStrings.FindString | lib/fdt/fdt.c:315-325 | the lowest place a terminated string lies at, or that there is none |
| FdtStrings.NameStays | lib/fdt/fdt_sw.c:250-291 | a name keeps its distance from the end of the table however the table grows |
| FdtStrings.FinalIs | lib/fdt/fdt_sw.c:359-374 | despite shared suffixes and relocation, item i of the finished tree is emission i |
| FdtWriter.Writer.constructor | lib/fdt/fdt_sw.c:109-146 | an empty tree: header room, reservation terminator, and nothing emitted |
| FdtWriter.Writer.GrabSpace | lib/fdt/fdt_sw.c:94-107 | grants room exactly when structure and strings do not meet |
| FdtWriter.Writer.BeginNode | lib/fdt/fdt_sw.c:219-234 | emits the node start exactly when it fits |
| FdtWriter.Writer.EndNode | lib/fdt/fdt_sw.c:236-248 | emits the node end exactly when it fits |
| FdtWriter.RoomTest | lib/fdt/fdt_sw.c:257-260 | the unsigned test agrees with the room there is if and only if the string is not longer than what the buffer has before the strings |
| FdtWriter.Writer.AddString | lib/fdt/fdt_sw.c:250-266 | puts a name below the others exactly when it fits; leaves the buffer exactly when the test wraps |
| FdtWriter.Writer.FindAddString | lib/fdt/fdt_sw.c:276-291 | finds a name, as a suffix too, or adds it |
| FdtWriter.Writer.Property | lib/fdt/fdt_sw.c:293-335 | emits name and value exactly when both fit; leaves the buffer exactly for a new name that overruns it |
| FdtWriter.Writer.RelocateNames | lib/fdt/fdt_sw.c:359-374 | rewrites every name offset in place and nothing else |
| FdtWriter.Writer.Finish | lib/fdt/fdt_sw.c:337-384 | joins structure and strings and relocates, exactly when the final tag fits |
| FdtBuild.NumMemRsv | lib/fdt/fdt_ro.c:189-199 | the first entry of size zero ends the map, and without one it is truncated |
| FdtBuild.Pack | lib/fdt/fdt_rw.c:494-507 | the packed tree has no holes and the same blocks |
| FdtBuild.MovesDown | lib/fdt/fdt_rw.c:403-424 | the three overlapping moves leave reservations, structure and strings intact |
| FdtBuild.TryBuild | lib/fdtutil.c:91-103 | succeeds exactly when the buffer holds the tree; leaves the buffer exactly when the first call that does not fit has a new name that overruns it |
| FdtBuild.ShortNamesStay | lib/fdt/fdt_sw.c:250-266 | with property names of up to 63 characters no buffer of any size is ever left |
| FdtBuild.LongNameLeaves | lib/fdt/fdt_sw.c:250-266 | a name of 64 characters leaves a buffer of 64 bytes |
| FdtBuild.Build | lib/fdtutil.c:105-138 | the blob depends only on what is emitted, not on the sizes tried; `ENOSPC` only beyond 4 MiB |
| FdtBuild.BlobSections | lib/fdt/fdt_rw.c:494-507 | the header of a blob leads to exactly its structure and strings blocks |
| FdtBuild.TreeRoundTrip | lib/fdt/fdt_sw.c:219-384 | a walk over a built and packed blob finds exactly the emissions, names and values included |
| FdtReader.FdtNextNode | lib/fdt/fdt.c:247-284 | the next node and its depth, or where the tree ends |
| FdtReader.FdtNextSubnode | lib/fdt/fdt.c:298-313 | the next node at the same depth, or that there is none |
| FdtReader.FdtGetProp | lib/fdt/fdt_ro.c:397-428 | the value of the first property with that name, or the error |
| FdtReader.FirstChild | lib/fdt/fdt.c:287-296 | for every sequence of emissions, the first subnode of a node is the first child emitted in it, or there is none |
| FdtReader.NextChild | lib/fdt/fdt.c:298-313 | for every sequence of emissions, the next subnode of a child is the next child of the same node, whatever lies between, and after the last there is none |
| FdtReader.GetPropIs | lib/fdt/fdt_ro.c:397-428 | for every sequence of emissions, a lookup finds the first property of that name emitted before the first subnode, and nothing else |
| FdtReader.AllFoundIff | lib/fdt/fdt_ro.c:397-428 | every property of a node is found under its name if and only if none was emitted after a subnode and no two have one name |
| FdtReader.LatePropertyLost | lib/fdt/fdt_ro.c:201-227 | in a built tree, a property emitted after a subnode is not found |
| FdtReader.BlobPresents | lib/fdtutil.c:105-138 | a built blob presents every emission to those readers |
| HostTrees.CellsRoundTrip | lib/fdtutil.c:40-89 | a list of 64-bit cells reads back |
| HostTrees.EmitHost | lib/host_tree.c:42-65 | emits exactly the properties and children of the host node, devices included; `EINVAL` exactly without CPUs or RAM; out of room or of memory otherwise |
| HostTrees.ReadDevices | lib/host_tree.c:199-222 | every listed device as its files say, or the error of the first that is refused |
| HostTrees.Read | lib/host_tree.c:224-266 | reads CPUs, the union of the memory nodes and the devices in any listing, and the vmcore description; fails only for malformed files or with the error of the file system or the allocator |
| HostTrees.ReadBack | lib/host_tree.c:42-266 | what is read from the directory of an emitted tree is that tree, but for the base of the IOMMUs and of an absent vmcoreinfo, and nothing but the file system or the allocator can make that fail |
| HostTrees.EmittedMemory | lib/host_tree.c:50-59 | the emitted memory nodes cover exactly the RAM, however they are listed |
| HostTrees.MemoryRecovered | lib/host_tree.c:242-254 | so the RAM read is, range for range, the RAM emitted |
| HostTrees.DevicesRecovered | lib/host_tree.c:170-222 | the devices read are the devices emitted, each once, in the order listed, but for the base of their IOMMU |
| HostTrees.CpusRecovered | lib/host_tree.c:233-238 | the CPUs read are the CPUs emitted |
| HostTrees.VmcoreRecovered | lib/host_tree.c:104-150 | the vmcore description read is the one emitted |
| Cpio.AncestorsComplete | lib/cpio.c:74-80 | exactly the prefixes before a slash are ancestors, shorter ones first |
| Cpio.Writer.Reserve | lib/cpio.c:12-26 | the bytes are kept; what is granted is backed by the buffer if and only if the buffer had the room or was regrown in that call; on failure the recorded capacity exceeds the buffer |
| Cpio.Writer.ReserveTwice | lib/cpio.c:12-26 | a request that was refused is granted when repeated, without the room |
| Cpio.Writer.Pad4 | lib/cpio.c:28-32 | zeros up to the next multiple of four and no further |
| Cpio.Writer.AddEntry | lib/cpio.c:34-60 | appends exactly one entry within the buffer; `EFBIG` exactly for bodies of 4 GiB; nothing is added on failure |
| Cpio.Writer.AddFile | lib/cpio.c:63-82 | appends every ancestor, then the file; `EINVAL` exactly for empty or too long paths; on other failures a proper prefix of that |
| Cpio.Writer.Finish | lib/cpio.c:84-87 | appends the trailer |
| Cpio.ArchiveAligned | lib/cpio.c:28-60 | every entry starts at a multiple of four |
| Cpio.EntryRead | tests/cpio_helpers.h:30-49 | the reader finds an entry with its name, mode and body, unless the name exceeds 254 bytes |
| Cpio.ArchiveRoundTrip | lib/cpio.c:34-87 | a finished archive lists back as exactly what was added, in order, and ends at its last byte |
| Cpio.FilesRoundTrip | lib/cpio.c:63-87 | files added one after another list back as each file's ancestors and then the file, in order |
| Requests.LineLen | lib/request.c:7-14 | the length without trailing line ends |
| Requests.RequestParse | lib/request.c:18-36 | the kind and payload length of a line, or `EINVAL` |
| Requests.ReadRequest | kmorphd/main.c:246-285 | however receives split the stream, kind, payload and error are those of the stream alone, and the payload is in the buffer; a deadline or failed receive after k bytes ends it with its error if and only if those k bytes decide nothing, and changes nothing otherwise |
| Requests.NetworkLineReads | lib/request.c:38-43 | the line printed for a length parses as that length |
| Requests.SentIsReceived | kmorph/watch.c:23-34 | any text the sender has room for is sent and arrives unchanged, whatever follows it |
| Netsnaps.Parse | lib/netsnap.c:225-259 | the links of a text up to its first NUL, line by line, or `EINVAL` |
| Netsnaps.Format | lib/netsnap.c:101-141 | the text of the links; `ENOSPC` exactly when it does not fit with its terminator |
| Netsnaps.TextRoundTrip | lib/netsnap.c:101-259 | parsing a formatted snapshot within the limits restores its links, addresses, lifetimes and routes in order |
| Netsnaps.IdentityDelivered | kmorph/watch.c:23-41 | a snapshot whose text fits arrives as one network request and parses as what was sent |
| Netsnaps.RestoreRoutes | lib/netsnap.c:596-616 | issues every route in two passes, whatever fails |
| Netsnaps.RestoredOrder | lib/netsnap.c:602-615 | every route exactly once, those without a gateway first, otherwise in order |

## Left out

- PlanExact: assumes that no rounding wraps, which PlanExactIff shows to be needed.
- PlanSafe: assumes that no rounding wraps, which PlanSafeIff shows to be needed; BelowTopUnwrapped meets it for machines without RAM in the top granule of the address space.
- DumpVmcore: assumes that the file size fits 64 bits, which LowerHalfDumpable gives for every machine with its memory in the lower half of the address space; TotalExact says what happens to the total otherwise.
- TextRoundTrip: `inet_ntop` and `inet_pton` are parameters that are assumed to be inverse to each other; names hold neither white space nor a NUL.
- AddEntry: what a writer does after `ENOMEM` is not modelled, because the callers stop; Reserve is.
- VmcoreRecovered: the base of a vmcoreinfo range of size zero, which means absent, is not kept.
- ArchiveRoundTrip: the reader is that of the repository's tests; what its `strtoul` does with signs, spaces and prefixes in a malformed header is not modelled.
- Property: what a name written before the buffer destroys is not modelled; the model stops there.
- ResetDevices: the forked resets run one after the other on the trace; how they interleave is not modelled.
- Build: the builder's calls are given as a sequence of emissions; errors of its own are not modelled.
- The wall clock, logging, state files, the listening socket, epoll and signal handling of kmorphd.
- `standby`, `init` and `console` of kmorphd, and the command line and client of kmorph: plumbing around system calls.
- Status replies and acknowledgements of the line protocol: straight-line formatting.
- Collecting a network snapshot from rtnetlink and turning it back into requests, except for the order of routes.
- The rest of libfdt: lookup by path or name, phandles, aliases, edits in place, reservation entries, versions below 17.
- Reading vmcoreinfo, CPU notes, PCI identities, the ACPI MADT, vmlinux images and the configuration file.
- The kernel: each overlay transaction, fence and hot-add is an outcome that either applies wholly or fails.
