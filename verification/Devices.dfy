/** Taking over the predecessor's PCI functions and IOMMUs (kmorphd/ops.c). */
module Devices {
  import opened Bytes
  import opened Errno
  import opened Effects

  datatype DeviceConfig = DeviceConfig(foreign: seq<DeviceId>, iommus: seq<Word64>, resetDevices: bool)

  /** How a child that resets one device fares: not forked, exited with its outcome, or lost. */
  datatype Child = NotForked | Exited | Lost

  /** What the kernel answers, by index: into `foreign` for `adopt`, into the adopted devices for the rest. */
  datatype DeviceWorld = DeviceWorld(
    granted: bool, hold: int, adopt: nat -> int,
    pids: bool, child: nat -> Child, reset: nat -> int, clear: nat -> int,
    claim: nat -> int, release: int, probe: nat -> int)

  /** `reset_device`: a function the kernel cannot reset at least stops its DMA. */
  function ResetDevice(w: DeviceWorld, i: nat, reset: bool): Outcome {
    if reset && w.reset(i) == 0 then WasReset
    else if w.clear(i) == 0 then Quiesced
    else Live
  }

  /** What the parent learns: a device whose child was lost counts as live. */
  function Reported(w: DeviceWorld, i: nat, reset: bool): Outcome {
    if w.pids && w.child(i) == Lost then Live else ResetDevice(w, i, reset)
  }

  /** How many of the first `n` devices are reported as `o`. */
  function CountOf(w: DeviceWorld, n: nat, reset: bool, o: Outcome): nat {
    if n == 0 then 0 else CountOf(w, n - 1, reset, o) + if Reported(w, n - 1, reset) == o then 1 else 0
  }

  /** The three counts add up to the devices, whichever forks fail and whichever children are lost. */
  lemma {:induction false} CountsAddUp(w: DeviceWorld, n: nat, reset: bool)
    ensures CountOf(w, n, reset, WasReset) + CountOf(w, n, reset, Quiesced) + CountOf(w, n, reset, Live) == n
    decreases n
  {
    if n > 0 { CountsAddUp(w, n - 1, reset); }
  }

  lemma {:induction false} NoneLive(w: DeviceWorld, n: nat, reset: bool)
    ensures CountOf(w, n, reset, Live) == 0 <==> forall i :: 0 <= i < n ==> Reported(w, i, reset) != Live
    decreases n
  {
    if n > 0 { NoneLive(w, n - 1, reset); }
  }

  function Slot(o: Outcome): nat {
    match o
    case WasReset => 0
    case Quiesced => 1
    case Live => 2
  }

  /** Those among the first `n` devices whose child the second loop waits for. */
  function WaitedFor(w: DeviceWorld, i: nat): bool {
    w.pids && w.child(i) != NotForked
  }

  /** The counts after `i` devices were started and the first `j` of them waited for. */
  function PartCount(w: DeviceWorld, i: nat, j: nat, reset: bool, o: Outcome): nat
    decreases i
  {
    if i == 0 then 0
    else PartCount(w, i - 1, j, reset, o) +
         if Reported(w, i - 1, reset) == o && (!WaitedFor(w, i - 1) || i - 1 < j) then 1 else 0
  }

  lemma {:induction false} PartCountAll(w: DeviceWorld, i: nat, j: nat, reset: bool, o: Outcome)
    requires i <= j || !w.pids
    ensures PartCount(w, i, j, reset, o) == CountOf(w, i, reset, o)
    decreases i
  {
    if i > 0 { PartCountAll(w, i - 1, j, reset, o); }
  }

  lemma {:induction false} PartCountWait(w: DeviceWorld, i: nat, j: nat, reset: bool, o: Outcome)
    requires j < i
    ensures PartCount(w, i, j + 1, reset, o) ==
            PartCount(w, i, j, reset, o) + if WaitedFor(w, j) && Reported(w, j, reset) == o then 1 else 0
    decreases i
  {
    if i - 1 > j {
      PartCountWait(w, i - 1, j, reset, o);
    } else {
      PartCountPast(w, j, j, reset, o);
    }
  }

  lemma {:induction false} PartCountPast(w: DeviceWorld, i: nat, j: nat, reset: bool, o: Outcome)
    requires i <= j
    ensures PartCount(w, i, j + 1, reset, o) == PartCount(w, i, j, reset, o)
    decreases i
  {
    if i > 0 { PartCountPast(w, i - 1, j, reset, o); }
  }

  /**
   * `reset_devices`: a child per device, started side by side and waited for in turn; a
   * device whose fork fails is reset here at once.
   */
  method ResetDevices(n: nat, reset: bool, w: DeviceWorld, counts: array<nat>)
    requires counts.Length == 3 && counts[0] == counts[1] == counts[2] == 0
    modifies counts
    ensures forall o :: counts[Slot(o)] == CountOf(w, n, reset, o)
    ensures counts[0] + counts[1] + counts[2] == n
  {
    var i := 0;
    while i < n
      invariant i <= n
      invariant counts[0] == PartCount(w, i, 0, reset, WasReset)
      invariant counts[1] == PartCount(w, i, 0, reset, Quiesced)
      invariant counts[2] == PartCount(w, i, 0, reset, Live)
    {
      if !w.pids || w.child(i) == NotForked {
        var o := ResetDevice(w, i, reset);
        counts[Slot(o)] := counts[Slot(o)] + 1;
      }
      i := i + 1;
    }
    i := 0;
    while w.pids && i < n
      invariant i <= n
      invariant counts[0] == PartCount(w, n, i, reset, WasReset)
      invariant counts[1] == PartCount(w, n, i, reset, Quiesced)
      invariant counts[2] == PartCount(w, n, i, reset, Live)
    {
      PartCountWait(w, n, i, reset, WasReset);
      PartCountWait(w, n, i, reset, Quiesced);
      PartCountWait(w, n, i, reset, Live);
      if w.child(i) != NotForked {
        var o := if w.child(i) == Exited then ResetDevice(w, i, reset) else Live;
        counts[Slot(o)] := counts[Slot(o)] + 1;
      }
      i := i + 1;
    }
    PartCountAll(w, n, i, reset, WasReset);
    PartCountAll(w, n, i, reset, Quiesced);
    PartCountAll(w, n, i, reset, Live);
    CountsAddUp(w, n, reset);
  }

  // ---------------------------------------------------------------- the device pass

  /** The devices among the first `n` whose adoption succeeded, in order. */
  function Adopted(foreign: seq<DeviceId>, w: DeviceWorld, n: nat): seq<DeviceId>
    requires n <= |foreign|
  {
    if n == 0 then [] else Adopted(foreign, w, n - 1) + if w.adopt(n - 1) == 0 then [foreign[n - 1]] else []
  }

  /** The first error among the adoptions of the first `n` devices. */
  function FirstError(w: DeviceWorld, n: nat): int {
    if n == 0 then 0
    else if FirstError(w, n - 1) != 0 then FirstError(w, n - 1) else w.adopt(n - 1)
  }

  function AdoptTrace(foreign: seq<DeviceId>, w: DeviceWorld, n: nat): seq<Effect>
    requires n <= |foreign|
  {
    seq(n, i requires 0 <= i < n => AdoptDevice(foreign[i], w.adopt(i)))
  }

  function SettleTrace(ids: seq<DeviceId>, w: DeviceWorld, reset: bool): seq<Effect> {
    seq(|ids|, i requires 0 <= i < |ids| => Settle(ids[i], Reported(w, i, reset)))
  }

  function ClaimTrace(units: seq<Word64>, w: DeviceWorld, n: nat): seq<Effect>
    requires n <= |units|
  {
    seq(n, i requires 0 <= i < n => ClaimIommu(units[i], w.claim(i)))
  }

  function ProbeTrace(ids: seq<DeviceId>, w: DeviceWorld, n: nat): seq<Effect>
    requires n <= |ids|
  {
    seq(n, i requires 0 <= i < n => ProbeDriver(ids[i], w.probe(i)))
  }

  predicate Holds(c: DeviceConfig, w: DeviceWorld) {
    (c.resetDevices || c.iommus != []) && w.hold == 0
  }

  /** All foreign functions were taken and none of them runs DMA any more. */
  predicate AllQuiet(c: DeviceConfig, w: DeviceWorld) {
    var ids := Adopted(c.foreign, w, |c.foreign|);
    FirstError(w, |c.foreign|) == 0 && CountOf(w, |ids|, c.resetDevices, Live) == 0
  }

  function PassTrace(c: DeviceConfig, w: DeviceWorld): seq<Effect> {
    if !w.granted then []
    else
      var ids := Adopted(c.foreign, w, |c.foreign|);
      var head := if c.resetDevices || c.iommus != [] then [Autoprobe(false, w.hold)] else [];
      var taken := head + AdoptTrace(c.foreign, w, |c.foreign|);
      if !Holds(c, w) then taken
      else
        taken + SettleTrace(ids, w, c.resetDevices)
        + (if AllQuiet(c, w) then ClaimTrace(c.iommus, w, |c.iommus|) else [])
        + [Autoprobe(true, w.release)] + ProbeTrace(ids, w, |ids|)
  }

  /** `claim_iommus`. */
  method ClaimIommus(units: seq<Word64>, allQuiet: bool, w: DeviceWorld) returns (log: seq<Effect>, claimed: nat)
    ensures log == if allQuiet then ClaimTrace(units, w, |units|) else []
    ensures claimed <= |log|
  {
    log, claimed := [], 0;
    if !allQuiet {
      return;
    }
    var i := 0;
    while i < |units|
      invariant i <= |units| && log == ClaimTrace(units, w, i) && claimed <= i
    {
      log := log + [ClaimIommu(units[i], w.claim(i))];
      if w.claim(i) == 0 {
        claimed := claimed + 1;
      }
      i := i + 1;
    }
  }

  /** Each foreign function in a transaction of its own; a failed one stops neither the others nor the pass. */
  method AdoptEach(foreign: seq<DeviceId>, w: DeviceWorld)
    returns (first: int, log: seq<Effect>, adopted: seq<DeviceId>)
    ensures log == AdoptTrace(foreign, w, |foreign|)
    ensures first == FirstError(w, |foreign|) && adopted == Adopted(foreign, w, |foreign|)
  {
    first, log, adopted := 0, [], [];
    var i := 0;
    while i < |foreign|
      invariant i <= |foreign| && log == AdoptTrace(foreign, w, i)
      invariant first == FirstError(w, i) && adopted == Adopted(foreign, w, i)
    {
      var ret := w.adopt(i);
      log := log + [AdoptDevice(foreign[i], ret)];
      if ret != 0 && first == 0 {
        first := ret;
      }
      if ret == 0 {
        adopted := adopted + [foreign[i]];
      }
      i := i + 1;
    }
  }

  method ProbeEach(ids: seq<DeviceId>, w: DeviceWorld) returns (log: seq<Effect>)
    ensures log == ProbeTrace(ids, w, |ids|)
  {
    log := [];
    var i := 0;
    while i < |ids|
      invariant i <= |ids| && log == ProbeTrace(ids, w, i)
    {
      log := log + [ProbeDriver(ids[i], w.probe(i))];
      i := i + 1;
    }
  }

  /** `ops_adopt_devices`: the effects of the whole pass, in order. */
  method AdoptDevices(c: DeviceConfig, w: DeviceWorld) returns (first: int, log: seq<Effect>, adopted: seq<DeviceId>)
    ensures log == PassTrace(c, w)
    ensures w.granted ==> first == FirstError(w, |c.foreign|) && adopted == Adopted(c.foreign, w, |c.foreign|)
    ensures !w.granted ==> first == -ENOMEM && adopted == []
  {
    hide AdoptTrace, SettleTrace, ProbeTrace, Adopted, FirstError, CountOf;
    first, log, adopted := -ENOMEM, [], [];
    if !w.granted {
      return;
    }
    var hold := c.resetDevices || c.iommus != [];
    if hold {
      log := [Autoprobe(false, w.hold)];
      if w.hold != 0 {
        hold := false;
      }
    }
    var more;
    first, more, adopted := AdoptEach(c.foreign, w);
    log := log + more;
    if !hold {
      return;
    }
    var counts := new nat[3](k => 0);
    ResetDevices(|adopted|, c.resetDevices, w, counts);
    assert counts[2] == counts[Slot(Live)];
    log := log + SettleTrace(adopted, w, c.resetDevices);
    if c.iommus != [] {
      var claimed;
      more, claimed := ClaimIommus(c.iommus, first == 0 && counts[2] == 0, w);
      log := log + more;
    }
    log := log + [Autoprobe(true, w.release)];
    more := ProbeEach(adopted, w);
    log := log + more;
  }

  // ---------------------------------------------------------------- what every pass obeys

  /** The phase of the pass an effect belongs to. */
  function Phase(e: Effect): int {
    match e
    case Autoprobe(on, _) => if on then 4 else 0
    case AdoptDevice(_, _) => 1
    case Settle(_, _) => 2
    case ClaimIommu(_, _) => 3
    case ProbeDriver(_, _) => 5
    case _ => -1
  }

  ghost predicate InPhases(t: seq<Effect>, lo: int, hi: int) {
    forall i :: 0 <= i < |t| ==> lo <= Phase(t[i]) <= hi
  }

  ghost predicate PhasesAscend(t: seq<Effect>) {
    forall i, j :: 0 <= i < j < |t| ==> Phase(t[i]) <= Phase(t[j])
  }

  lemma AscendConcat(s: seq<Effect>, t: seq<Effect>, p: int, q: int, r: int)
    requires PhasesAscend(s) && InPhases(s, 0, p) && PhasesAscend(t) && InPhases(t, q, r) && 0 <= p <= q <= r
    ensures PhasesAscend(s + t) && InPhases(s + t, 0, r)
  {
  }

  lemma PiecesInPhase(c: DeviceConfig, w: DeviceWorld, ids: seq<DeviceId>)
    ensures var t := AdoptTrace(c.foreign, w, |c.foreign|); PhasesAscend(t) && InPhases(t, 1, 1)
    ensures var t := SettleTrace(ids, w, c.resetDevices); PhasesAscend(t) && InPhases(t, 2, 2)
    ensures var t := ClaimTrace(c.iommus, w, |c.iommus|); PhasesAscend(t) && InPhases(t, 3, 3)
    ensures var t := ProbeTrace(ids, w, |ids|); PhasesAscend(t) && InPhases(t, 5, 5)
  {
  }

  /** Drivers are held off first; adoptions, settling and IOMMU claims follow in that order; drivers probe last. */
  lemma PassInOrder(c: DeviceConfig, w: DeviceWorld)
    ensures PhasesAscend(PassTrace(c, w)) && InPhases(PassTrace(c, w), 0, 5)
  {
    if w.granted {
      var ids := Adopted(c.foreign, w, |c.foreign|);
      PiecesInPhase(c, w, ids);
      var head := if c.resetDevices || c.iommus != [] then [Autoprobe(false, w.hold)] else [];
      assert PhasesAscend(head) && InPhases(head, 0, 0);
      hide Adopted, CountOf, FirstError, AdoptTrace, SettleTrace, ClaimTrace, ProbeTrace, PhasesAscend;
      var t1 := head + AdoptTrace(c.foreign, w, |c.foreign|);
      AscendConcat(head, AdoptTrace(c.foreign, w, |c.foreign|), 0, 1, 1);
      if Holds(c, w) {
        AscendConcat(t1, SettleTrace(ids, w, c.resetDevices), 1, 2, 2);
        TailInOrder(c, w, ids, t1 + SettleTrace(ids, w, c.resetDevices));
      }
    }
  }

  lemma TailInOrder(c: DeviceConfig, w: DeviceWorld, ids: seq<DeviceId>, t: seq<Effect>)
    requires PhasesAscend(t) && InPhases(t, 0, 2)
    ensures var claims := if AllQuiet(c, w) then ClaimTrace(c.iommus, w, |c.iommus|) else [];
            var u := t + claims + [Autoprobe(true, w.release)] + ProbeTrace(ids, w, |ids|);
            PhasesAscend(u) && InPhases(u, 0, 5)
  {
    PiecesInPhase(c, w, ids);
    var claims := if AllQuiet(c, w) then ClaimTrace(c.iommus, w, |c.iommus|) else [];
    var on := [Autoprobe(true, w.release)];
    assert PhasesAscend(on) && InPhases(on, 4, 4);
    assert PhasesAscend(claims) && InPhases(claims, 3, 3);
    hide ClaimTrace, ProbeTrace, PhasesAscend, InPhases;
    AscendConcat(t, claims, 2, 3, 3);
    AscendConcat(t + claims, on, 3, 4, 4);
    AscendConcat(t + claims + on, ProbeTrace(ids, w, |ids|), 4, 5, 5);
  }

  lemma {:induction false} AllAdopted(foreign: seq<DeviceId>, w: DeviceWorld, n: nat)
    requires n <= |foreign| && FirstError(w, n) == 0
    ensures Adopted(foreign, w, n) == foreign[..n]
    ensures forall i :: 0 <= i < n ==> w.adopt(i) == 0
    decreases n
  {
    if n > 0 {
      AllAdopted(foreign, w, n - 1);
      assert foreign[..n] == foreign[..n - 1] + [foreign[n - 1]];
    }
  }

  /** Every foreign function was adopted and every one of them reset or quiesced, all within `t`. */
  ghost predicate TakenAndQuiet(t: seq<Effect>, foreign: seq<DeviceId>) {
    forall i :: 0 <= i < |foreign| ==>
      AdoptDevice(foreign[i], 0) in t && (Settle(foreign[i], WasReset) in t || Settle(foreign[i], Quiesced) in t)
  }

  /**
   * An IOMMU is claimed only once every foreign function was adopted and reset or
   * quiesced, with drivers held off and none of it undone later; whoever was held off is
   * let go again.
   */
  lemma ClaimsOnlyWhenQuiet(c: DeviceConfig, w: DeviceWorld, k: int)
    requires 0 <= k < |PassTrace(c, w)| && PassTrace(c, w)[k].ClaimIommu?
    ensures PassTrace(c, w)[0] == Autoprobe(false, 0)
    ensures TakenAndQuiet(PassTrace(c, w)[..k], c.foreign)
    ensures Autoprobe(true, w.release) in PassTrace(c, w)[k..]
  {
    ClaimsComeAfter(c, w, k);
    SettledQuiet(c, w);
    hide PassTrace, TakenPart, ClaimTrace, AllQuiet;
    var t, before := PassTrace(c, w), TakenPart(c, w);
    forall e | e in before ensures e in t[..k] {
      var i :| 0 <= i < |before| && before[i] == e;
      assert t[..k][i] == e;
    }
    var at := |before| + |ClaimTrace(c.iommus, w, |c.iommus|)|;
    assert t[k..][at - k] == t[at];
  }

  /** The pass up to the point where every adopted device has settled, when drivers are held off. */
  function TakenPart(c: DeviceConfig, w: DeviceWorld): seq<Effect> {
    [Autoprobe(false, w.hold)] + AdoptTrace(c.foreign, w, |c.foreign|)
    + SettleTrace(Adopted(c.foreign, w, |c.foreign|), w, c.resetDevices)
  }

  lemma SettledQuiet(c: DeviceConfig, w: DeviceWorld)
    requires AllQuiet(c, w)
    ensures TakenAndQuiet(TakenPart(c, w), c.foreign)
  {
    var n := |c.foreign|;
    AllAdopted(c.foreign, w, n);
    assert c.foreign[..n] == c.foreign;
    NoneLive(w, n, c.resetDevices);
    var adopts, settles := AdoptTrace(c.foreign, w, n), SettleTrace(c.foreign, w, c.resetDevices);
    var t := TakenPart(c, w);
    assert t == [Autoprobe(false, w.hold)] + adopts + settles;
    hide Adopted, CountOf, FirstError, TakenPart;
    forall i | 0 <= i < n
      ensures AdoptDevice(c.foreign[i], 0) in t
      ensures Settle(c.foreign[i], WasReset) in t || Settle(c.foreign[i], Quiesced) in t
    {
      assert t[1 + i] == adopts[i];
      assert t[1 + n + i] == settles[i];
    }
  }

  lemma ClaimsComeAfter(c: DeviceConfig, w: DeviceWorld, k: int)
    requires 0 <= k < |PassTrace(c, w)| && PassTrace(c, w)[k].ClaimIommu?
    ensures AllQuiet(c, w) && TakenPart(c, w) <= PassTrace(c, w) && PassTrace(c, w)[0] == Autoprobe(false, 0)
    ensures var at := |TakenPart(c, w)| + |ClaimTrace(c.iommus, w, |c.iommus|)|;
            |TakenPart(c, w)| <= k < at < |PassTrace(c, w)| && PassTrace(c, w)[at] == Autoprobe(true, w.release)
  {
    hide Adopted, CountOf, FirstError;
  }

  ghost predicate Tried(t: seq<Effect>, id: DeviceId) {
    exists r :: AdoptDevice(id, r) in t
  }

  /** Drivers may probe again after `k`. */
  ghost predicate LetGo(t: seq<Effect>, k: nat) {
    exists r :: k < r < |t| && t[r].Autoprobe? && t[r].on
  }

  /** Whoever is held off is let go again. */
  lemma HeldOffIsLetGo(c: DeviceConfig, w: DeviceWorld, k: int)
    requires 0 <= k < |PassTrace(c, w)| && PassTrace(c, w)[k] == Autoprobe(false, 0)
    ensures LetGo(PassTrace(c, w), k)
  {
    HoldsAt(c, w, k);
    hide Adopted, CountOf, FirstError, AdoptTrace, SettleTrace, ClaimTrace, ProbeTrace;
    var ids := Adopted(c.foreign, w, |c.foreign|);
    var taken := [Autoprobe(false, w.hold)] + AdoptTrace(c.foreign, w, |c.foreign|);
    var claims := if AllQuiet(c, w) then ClaimTrace(c.iommus, w, |c.iommus|) else [];
    var at := |taken + SettleTrace(ids, w, c.resetDevices) + claims|;
    assert PassTrace(c, w)[at] == Autoprobe(true, w.release);
  }

  /** Only the first effect of a pass holds drivers off. */
  lemma HoldsAt(c: DeviceConfig, w: DeviceWorld, k: int)
    requires 0 <= k < |PassTrace(c, w)| && PassTrace(c, w)[k] == Autoprobe(false, 0)
    ensures w.granted && Holds(c, w) && k == 0
  {
    hide Adopted, CountOf, FirstError;
  }

  /** What is true of every device pass, said of its effects alone. */
  ghost predicate OrderedPass(c: DeviceConfig, t: seq<Effect>) {
    && PhasesAscend(t) && InPhases(t, 0, 5)
    && (t != [] ==> forall i :: 0 <= i < |c.foreign| ==> Tried(t, c.foreign[i]))
    && (forall k :: 0 <= k < |t| && t[k].ClaimIommu? ==>
          t[0] == Autoprobe(false, 0) && TakenAndQuiet(t[..k], c.foreign) && LetGo(t, k))
    && (forall k :: 0 <= k < |t| && t[k] == Autoprobe(false, 0) ==> LetGo(t, k))
  }

  lemma PassIsOrdered(c: DeviceConfig, w: DeviceWorld)
    ensures OrderedPass(c, PassTrace(c, w))
  {
    var t := PassTrace(c, w);
    PassInOrder(c, w);
    forall k | 0 <= k < |t| && t[k].ClaimIommu?
      ensures t[0] == Autoprobe(false, 0) && TakenAndQuiet(t[..k], c.foreign) && LetGo(t, k)
    {
      ClaimsOnlyWhenQuiet(c, w, k);
      var r :| 0 <= r < |t[k..]| && t[k..][r] == Autoprobe(true, w.release);
      assert t[k + r] == Autoprobe(true, w.release);
    }
    forall k | 0 <= k < |t| && t[k] == Autoprobe(false, 0) ensures LetGo(t, k) { HeldOffIsLetGo(c, w, k); }
    if t != [] {
      forall i | 0 <= i < |c.foreign| ensures Tried(t, c.foreign[i]) { PassTriesAll(c, w, i); }
    }
  }

  lemma PassTriesAll(c: DeviceConfig, w: DeviceWorld, i: int)
    requires w.granted && 0 <= i < |c.foreign|
    ensures Tried(PassTrace(c, w), c.foreign[i])
  {
    hide Adopted, CountOf, FirstError, SettleTrace, ClaimTrace, ProbeTrace;
    var head := if c.resetDevices || c.iommus != [] then [Autoprobe(false, w.hold)] else [];
    assert PassTrace(c, w)[|head| + i] == AdoptDevice(c.foreign[i], w.adopt(i));
  }
}
