/**
 * The takeover operations (kmorphd/ops.c) and the state machine driving them, as values:
 * what every run of the two together does to the machine.
 */
module Operations {
  import opened Bytes
  import opened Options
  import opened Ranges
  import opened Plans
  import opened Effects
  import opened Devices
  import opened Machines

  /** What a takeover runs with; `record` is what the pool claim file held when the daemon started. */
  datatype OpsConfig = OpsConfig(
    devices: DeviceConfig, host: seq<Range>, hostCpus: seq<Word64>, reserved: seq<Range>, ownCpus: seq<Word64>,
    next: Word64, hasPath: bool, record: Option<seq<Byte>>)

  /** The part of `struct ops` that changes, and every effect so far. */
  datatype OpsState = OpsState(
    dump: bool, network: bool, devicesTried: bool, plan: Option<Plan>, preserved: seq<Range>, trace: seq<Effect>)
  {
    function Log(e: seq<Effect>): OpsState {
      this.(trace := trace + e)
    }
  }

  function Fresh(dump: bool, network: bool): OpsState {
    OpsState(dump, network, false, None, [], [])
  }

  /** How planning turns out: no memory, no own RAM to read, nothing takeable; or a plan. */
  datatype PlanAnswer = NoPlan(ret: int, attempt: Attempt) | Made(plan: Plan)

  /** What the kernel and the allocator answer during one event, if asked. */
  datatype World = World(
    fence: int, devices: DeviceWorld, plan: PlanAnswer, copy: int, partial: seq<Range>, offer: int,
    dump: int, reap: int)

  /** The plan is one the code can compute from this machine; a failure has a reason. */
  ghost predicate Plausible(cfg: OpsConfig, w: World) {
    match w.plan
    case NoPlan(ret, attempt) => ret != 0 && (attempt.Attempt? ==> WholeAttempt(attempt) && attempt.claim.size == 0)
    case Made(p) =>
      p.host == cfg.host && p.reserved == cfg.reserved &&
      Planned(p, cfg.hostCpus, cfg.ownCpus, cfg.next, cfg.hasPath)
  }

  /** The device pass, once per daemon, with the network identity restored after it. */
  function DevicesTaken(o: OpsState, cfg: OpsConfig, w: DeviceWorld): OpsState {
    if o.devicesTried then o
    else
      o.(devicesTried := true).Log(PassTrace(cfg.devices, w) + if o.network then [RestoreNetwork] else [])
  }

  /** A new plan takes the place of the old one, or there is none. */
  function Replanned(o: OpsState, answer: PlanAnswer): OpsState {
    match answer
    case NoPlan(ret, attempt) => o.(plan := None).Log([PlanFailed(ret, attempt)])
    case Made(p) => o.(plan := Some(p)).Log([PlanMade(p)])
  }

  /** `ops_adopt`: devices, then a plan, then CPUs and, unless a dump comes first, memory. */
  function AfterAdopt(o: OpsState, cfg: OpsConfig, w: World): (OpsState, int) {
    var d := DevicesTaken(o, cfg, w.devices);
    var n := Replanned(d, w.plan);
    match w.plan
    case NoPlan(ret, _) => (n, ret)
    case Made(p) =>
      if !o.dump then (n.Log([Offer(p.cpus, p.adoptable, w.offer)]), w.offer)
      else if w.copy != 0 then (n.(preserved := w.partial), w.copy)
      else (n.(preserved := p.adoptable).Log([Offer(p.cpus, [], w.offer)]), w.offer)
  }

  /** `ops_preserve`: the takeable memory goes to the dump, if one is configured and any memory was held back. */
  function AfterPreserve(o: OpsState, w: World): (OpsState, int) {
    if !o.dump || o.preserved == [] || o.plan.None? then (o, 0)
    else (o.Log([Dump(o.plan.value.memory, w.dump)]), w.dump)
  }

  /** `ops_reap`: the memory held back, once. */
  function AfterReap(o: OpsState, w: World): (OpsState, int) {
    if o.preserved == [] then (o, 0)
    else
      var n := o.Log([Offer([], o.preserved, w.reap)]);
      (if w.reap == 0 then n.(preserved := []) else n, w.reap)
  }

  /** The attempt to write the record that came with an effect. */
  function AttemptOf(e: Effect): Attempt {
    match e
    case PlanMade(p) => p.attempt
    case PlanFailed(_, attempt) => attempt
    case _ => NoAttempt
  }

  /** The record of the pool claim after `t`, if the file held `file` before. */
  function RecordAfter(file: Option<seq<Byte>>, t: seq<Effect>): Option<seq<Byte>> {
    if t == [] then file else AfterAttempt(RecordAfter(file, t[..|t| - 1]), AttemptOf(t[|t| - 1]))
  }

  predicate IsPlanning(e: Effect) {
    e.PlanMade? || e.PlanFailed?
  }

  lemma RecordStep(file: Option<seq<Byte>>, t: seq<Effect>, e: Effect)
    ensures RecordAfter(file, t + [e]) == AfterAttempt(RecordAfter(file, t), AttemptOf(e))
  {
    assert (t + [e])[..|t|] == t;
  }

  lemma RecordSame(file: Option<seq<Byte>>, t: seq<Effect>, e: Effect)
    requires !IsPlanning(e)
    ensures RecordAfter(file, t + [e]) == RecordAfter(file, t)
  {
    RecordStep(file, t, e);
  }

  /** Only planning touches the record. */
  lemma {:induction false} RecordUntouched(file: Option<seq<Byte>>, t: seq<Effect>, s: seq<Effect>)
    requires forall e :: e in s ==> !IsPlanning(e)
    ensures RecordAfter(file, t + s) == RecordAfter(file, t)
    decreases |s|
  {
    if s == [] {
      assert t + s == t;
    } else {
      var most, e := s[..|s| - 1], s[|s| - 1];
      assert t + s == (t + most) + [e];
      RecordUntouched(file, t, most);
      RecordStep(file, t + most, e);
      assert AttemptOf(e) == NoAttempt by { assert e in s; }
    }
  }

  // ---------------------------------------------------------------- the machine and its operations together

  datatype System = System(machine: Machine, ops: OpsState)

  /** What the operations answer the machine during an event, from where they stand now. */
  function AnswersOf(o: OpsState, cfg: OpsConfig, w: World): Answers {
    var (o1, adopt) := AfterAdopt(o, cfg, w);
    var (o2, preserve) := AfterPreserve(o1, w);
    var (_, reap) := AfterReap(o2, w);
    Answers(w.fence, adopt, preserve, reap)
  }

  function AfterCall(o: OpsState, cfg: OpsConfig, w: World, c: Call): OpsState {
    match c
    case Fence(ret) => o.Log([FenceCall(ret)])
    case Adopt(_) => AfterAdopt(o, cfg, w).0
    case Preserve(_) => AfterPreserve(o, w).0
    case Reap(_) => AfterReap(o, w).0
  }

  function AfterCalls(o: OpsState, cfg: OpsConfig, w: World, calls: seq<Call>): OpsState {
    if calls == [] then o else AfterCall(AfterCalls(o, cfg, w, calls[..|calls| - 1]), cfg, w, calls[|calls| - 1])
  }

  /** One event handled by the machine, with the calls it makes carried out in order. */
  function Advance(s: System, tk: Config, cfg: OpsConfig, ev: Event, w: World): System {
    var m := Handled(s.machine, tk, ev, AnswersOf(s.ops, cfg, w));
    var made := if s.machine.calls <= m.calls then m.calls[|s.machine.calls|..] else [];
    System(m, AfterCalls(s.ops, cfg, w, made))
  }

  // ---------------------------------------------------------------- the shape of a trace

  ghost predicate OnlyFailedFences(t: seq<Effect>) {
    forall i :: 0 <= i < |t| ==> t[i].FenceCall? && t[i].ret != 0
  }

  /** Failed fences and then the one that succeeded. */
  ghost predicate FencePart(t: seq<Effect>) {
    t != [] && OnlyFailedFences(t[..|t| - 1]) && t[|t| - 1] == FenceCall(0)
  }

  /** The device pass, and after it perhaps the network identity. */
  ghost predicate PassPart(cfg: OpsConfig, t: seq<Effect>) {
    OrderedPass(cfg.devices, t) || (t != [] && t[|t| - 1] == RestoreNetwork && OrderedPass(cfg.devices, t[..|t| - 1]))
  }

  /** The plan in force after `t`: the last one made, if no later attempt failed. */
  function Current(t: seq<Effect>): Option<Plan> {
    if t == [] then None
    else
      match t[|t| - 1]
      case PlanMade(p) => Some(p)
      case PlanFailed(_, _) => None
      case _ => Current(t[..|t| - 1])
  }

  /** A dump of exactly the memory of plan `p` succeeded in `t` after `p` was made. */
  function Dumped(t: seq<Effect>, p: Plan): bool {
    if t == [] then false
    else
      match t[|t| - 1]
      case PlanMade(_) => false
      case PlanFailed(_, _) => false
      case Dump(ranges, ret) => (ret == 0 && ranges == p.memory) || Dumped(t[..|t| - 1], p)
      case _ => Dumped(t[..|t| - 1], p)
  }

  /** An offer is for what the plan in force found: its CPUs, and all its adoptable memory or none. */
  ghost predicate OfferOfPlan(t: seq<Effect>, offer: Effect, dump: bool)
    requires offer.Offer?
  {
    Current(t).Some? &&
    var p := Current(t).value;
    && (offer.cpus == [] || offer.cpus == p.cpus)
    && (offer.memory == [] || offer.memory == p.adoptable)
    && (dump && offer.memory != [] ==> Dumped(t, p))
  }

  /** Effects after the devices: plans, offers of what they found, and a dump only if one is configured. */
  ghost predicate TailPart(cfg: OpsConfig, dump: bool, t: seq<Effect>)
    decreases |t|
  {
    t == [] || (
      var before, e := t[..|t| - 1], t[|t| - 1];
      TailPart(cfg, dump, before) &&
      match e
      case PlanMade(p) => Plausible(cfg, World(0, NoDevices, Made(p), 0, [], 0, 0, 0))
      case PlanFailed(_, _) => true
      case Offer(_, _, _) => OfferOfPlan(before, e, dump)
      case Dump(_, _) => dump
      case _ => false)
  }

  const NoDevices: DeviceWorld :=
    DeviceWorld(false, 0, (i: nat) => 0, false, (i: nat) => NotForked, (i: nat) => 0, (i: nat) => 0,
                (i: nat) => 0, 0, (i: nat) => 0)

  /** Fences up to `i`, the devices up to `j`, then everything else. */
  ghost predicate Layout(cfg: OpsConfig, dump: bool, t: seq<Effect>, i: int, j: int) {
    0 < i <= j <= |t| && FencePart(t[..i]) && PassPart(cfg, t[i..j]) && TailPart(cfg, dump, t[j..])
  }

  // ---------------------------------------------------------------- what each call keeps

  /** Fenced, devices not tried or tried: the operations may run. */
  ghost predicate Underway(cfg: OpsConfig, o: OpsState, i: int, j: int) {
    && (!o.dump ==> o.preserved == [])
    && Layout(cfg, o.dump, o.trace, i, j)
    && Current(o.trace[j..]) == o.plan
    && (!o.devicesTried ==> i == j == |o.trace|)
  }

  lemma TailGrows(cfg: OpsConfig, o: OpsState, i: int, j: int, e: Effect)
    requires Layout(cfg, o.dump, o.trace, i, j) && TailPart(cfg, o.dump, o.trace[j..] + [e])
    ensures Layout(cfg, o.dump, o.Log([e]).trace, i, j)
    ensures o.Log([e]).trace[j..] == o.trace[j..] + [e]
  {
    hide TailPart, FencePart, PassPart;
    SlicesOfAppend(o.trace, e, i, j);
  }

  lemma SlicesOfAppend(s: seq<Effect>, e: Effect, i: int, j: int)
    requires 0 <= i <= j <= |s|
    ensures var t := s + [e]; t[..i] == s[..i] && t[i..j] == s[i..j] && t[j..] == s[j..] + [e]
  {
  }

  lemma LastOfAppend(t: seq<Effect>, e: Effect)
    ensures (t + [e])[..|t + [e]| - 1] == t && (t + [e])[|t + [e]| - 1] == e
  {
  }

  lemma DevicesKeep(cfg: OpsConfig, o: OpsState, w: World, i: int, j: int) returns (j': int)
    requires Underway(cfg, o, i, j)
    ensures var d := DevicesTaken(o, cfg, w.devices);
            && d.devicesTried && Underway(cfg, d, i, j')
            && d.plan == o.plan && d.preserved == o.preserved && d.dump == o.dump
  {
    hide OrderedPass, PassTrace;
    if o.devicesTried { return j; }
    var pass := PassTrace(cfg.devices, w.devices);
    var seg := pass + if o.network then [RestoreNetwork] else [];
    var t := o.trace + seg;
    j' := |t|;
    PassIsOrdered(cfg.devices, w.devices);
    assert o.network ==> seg[..|seg| - 1] == pass;
    assert !o.network ==> seg == pass;
    assert t[..i] == o.trace[..i] && t[i..j'] == seg && t[j'..] == [] == o.trace[j..];
  }

  /** What an adoption attempt leaves behind; if it succeeded, the plan in force is what was offered. */
  lemma AdoptKeeps(cfg: OpsConfig, o: OpsState, w: World, i: int, j: int) returns (j': int)
    requires Underway(cfg, o, i, j) && Plausible(cfg, w)
    ensures var (n, ret) := AfterAdopt(o, cfg, w);
            && Underway(cfg, n, i, j') && n.devicesTried && n.dump == o.dump
            && (ret == 0 ==> n.plan.Some? && n.preserved == if n.dump then n.plan.value.adoptable else [])
  {
    hide DevicesTaken, Underway, Planned;
    j' := DevicesKeep(cfg, o, w, i, j);
    var d := DevicesTaken(o, cfg, w.devices);
    PlanLogged(cfg, d, w, i, j');
    if w.plan.Made? {
      var p := w.plan.plan;
      var n := Replanned(d, w.plan);
      if o.dump {
        HoldBack(cfg, n, w.partial, i, j');
        HoldBack(cfg, n, p.adoptable, i, j');
        OfferLogged(cfg, n.(preserved := p.adoptable), p, [], w.offer, i, j');
      } else {
        OfferLogged(cfg, n, p, p.adoptable, w.offer, i, j');
        assert n.preserved == [] by { NothingHeld(cfg, n, i, j'); }
      }
    }
  }

  lemma NothingHeld(cfg: OpsConfig, o: OpsState, i: int, j: int)
    requires Underway(cfg, o, i, j) && !o.dump
    ensures o.preserved == []
  {
  }

  lemma HoldBack(cfg: OpsConfig, o: OpsState, held: seq<Range>, i: int, j: int)
    requires Underway(cfg, o, i, j) && o.dump
    ensures Underway(cfg, o.(preserved := held), i, j)
  {
  }

  lemma PlanLogged(cfg: OpsConfig, d: OpsState, w: World, i: int, j: int)
    requires Underway(cfg, d, i, j) && d.devicesTried && Plausible(cfg, w)
    ensures Underway(cfg, Replanned(d, w.plan), i, j)
  {
    hide FencePart, PassPart, Planned;
    var e := if w.plan.Made? then PlanMade(w.plan.plan) else PlanFailed(w.plan.ret, w.plan.attempt);
    LastOfAppend(d.trace[j..], e);
    TailGrows(cfg, d, i, j, e);
  }

  lemma OfferLogged(cfg: OpsConfig, n: OpsState, p: Plan, memory: seq<Range>, ret: int, i: int, j: int)
    requires Underway(cfg, n, i, j) && n.devicesTried && n.plan == Some(p)
    requires memory == [] || (!n.dump && memory == p.adoptable)
    ensures Underway(cfg, n.Log([Offer(p.cpus, memory, ret)]), i, j)
  {
    hide FencePart, PassPart, Planned;
    var e := Offer(p.cpus, memory, ret);
    LastOfAppend(n.trace[j..], e);
    TailGrows(cfg, n, i, j, e);
  }

  /** A dump is logged only when one is configured; if it succeeded, what was held back is on it. */
  lemma PreserveKeeps(cfg: OpsConfig, o: OpsState, w: World, i: int, j: int)
    requires Underway(cfg, o, i, j) && o.devicesTried && o.plan.Some?
    requires o.preserved == if o.dump then o.plan.value.adoptable else []
    ensures var (n, ret) := AfterPreserve(o, w);
            && Underway(cfg, n, i, j) && n.devicesTried && n.dump == o.dump
            && n.plan == o.plan && n.preserved == o.preserved
            && (ret == 0 && n.preserved != [] ==> Dumped(n.trace[j..], n.plan.value))
  {
    hide FencePart, PassPart, Planned;
    if o.dump && o.preserved != [] {
      var e := Dump(o.plan.value.memory, w.dump);
      LastOfAppend(o.trace[j..], e);
      TailGrows(cfg, o, i, j, e);
    }
  }

  lemma ReapKeeps(cfg: OpsConfig, o: OpsState, w: World, i: int, j: int)
    requires Underway(cfg, o, i, j) && o.devicesTried && o.plan.Some?
    requires o.preserved == if o.dump then o.plan.value.adoptable else []
    requires o.preserved != [] ==> Dumped(o.trace[j..], o.plan.value)
    ensures var (n, ret) := AfterReap(o, w);
            Underway(cfg, n, i, j) && n.devicesTried && n.dump == o.dump
  {
    hide FencePart, PassPart, Planned;
    if o.preserved != [] {
      var e := Offer([], o.preserved, w.reap);
      LastOfAppend(o.trace[j..], e);
      TailGrows(cfg, o, i, j, e);
    }
  }

  // ---------------------------------------------------------------- what every event keeps

  /** Everything known between events, by state of the machine. */
  ghost predicate Sound(s: System, cfg: OpsConfig) {
    var o := s.ops;
    match s.machine.state
    case Armed => o.trace == [] && !o.devicesTried && o.preserved == [] && o.plan == None
    case Suspect => o.trace == [] && !o.devicesTried && o.preserved == [] && o.plan == None
    case FenceFailed => OnlyFailedFences(o.trace) && !o.devicesTried && o.preserved == [] && o.plan == None
    case Fencing => false
    case Fenced => o.devicesTried && exists i, j :: Underway(cfg, o, i, j)
    case TakenOver => o.devicesTried && exists i, j :: Underway(cfg, o, i, j)
  }

  lemma CallsOne(o: OpsState, cfg: OpsConfig, w: World, s: seq<Call>, c: Call)
    ensures AfterCalls(o, cfg, w, s + [c]) == AfterCall(AfterCalls(o, cfg, w, s), cfg, w, c)
  {
    assert (s + [c])[..|s|] == s;
  }

  /** The calls `Continued` makes, spelled out. */
  function ContinuedCalls(a: Answers): seq<Call> {
    [Adopt(a.adopt)] +
    if a.adopt != 0 then []
    else if a.preserve != 0 then [Preserve(a.preserve)]
    else [Preserve(a.preserve), Reap(a.reap)]
  }

  lemma ContinuedMakes(m: Machine, a: Answers)
    ensures Continued(m, a).calls == m.calls + ContinuedCalls(a)
    ensures Continued(m, a).state == if a.adopt == 0 then TakenOver else m.state
  {
  }

  lemma BegunMakes(m: Machine, a: Answers)
    ensures Begun(m, a).calls == m.calls + ([Fence(a.fence)] + if a.fence == 0 then ContinuedCalls(a) else [])
    ensures Begun(m, a).state == if a.fence != 0 then FenceFailed else if a.adopt == 0 then TakenOver else Fenced
  {
    var f := m.Enter(Fencing).(attempts := Next32(m.attempts)).Step(Fence(a.fence));
    ContinuedMakes(f.Enter(Fenced), a);
  }

  /** Carrying out an adoption and what follows it, from a state where the operations may run. */
  lemma ContinueKeeps(cfg: OpsConfig, o: OpsState, w: World, a: Answers, i: int, j: int)
    requires Underway(cfg, o, i, j) && Plausible(cfg, w) && a == AnswersOf(o, cfg, w)
    ensures var n := AfterCalls(o, cfg, w, ContinuedCalls(a));
            n.devicesTried && n.dump == o.dump && exists i', j' :: Underway(cfg, n, i', j')
  {
    hide Underway, AfterAdopt, AfterPreserve, AfterReap, Plausible;
    var j' := AdoptKeeps(cfg, o, w, i, j);
    var (o1, ret1) := AfterAdopt(o, cfg, w);
    CallsOne(o, cfg, w, [], Adopt(a.adopt));
    assert [Adopt(a.adopt)] == [] + [Adopt(a.adopt)];
    if a.adopt == 0 {
      PreserveKeeps(cfg, o1, w, i, j');
      var (o2, ret2) := AfterPreserve(o1, w);
      CallsOne(o, cfg, w, [Adopt(a.adopt)], Preserve(a.preserve));
      assert [Adopt(a.adopt)] + [Preserve(a.preserve)] == [Adopt(a.adopt), Preserve(a.preserve)];
      if a.preserve == 0 {
        ReapKeeps(cfg, o2, w, i, j');
        CallsOne(o, cfg, w, [Adopt(a.adopt), Preserve(a.preserve)], Reap(a.reap));
        assert ContinuedCalls(a) == [Adopt(a.adopt), Preserve(a.preserve)] + [Reap(a.reap)];
      }
    } else {
      assert ContinuedCalls(a) == [Adopt(a.adopt)];
    }
  }

  lemma {:induction false} CallsConcat(o: OpsState, cfg: OpsConfig, w: World, s: seq<Call>, t: seq<Call>)
    ensures AfterCalls(o, cfg, w, s + t) == AfterCalls(AfterCalls(o, cfg, w, s), cfg, w, t)
    decreases |t|
  {
    if t == [] {
      assert s + t == s;
    } else {
      var most := t[..|t| - 1];
      assert s + t == (s + most) + [t[|t| - 1]];
      CallsConcat(o, cfg, w, s, most);
      CallsOne(o, cfg, w, s + most, t[|t| - 1]);
    }
  }

  lemma AnswersIgnoreTrace(o: OpsState, cfg: OpsConfig, w: World, e: seq<Effect>)
    ensures AnswersOf(o.Log(e), cfg, w) == AnswersOf(o, cfg, w)
  {
  }

  /** Carrying out a fence and, if it succeeds, what follows it. */
  lemma BeginKeeps(cfg: OpsConfig, o: OpsState, w: World, a: Answers)
    requires OnlyFailedFences(o.trace) && !o.devicesTried && o.preserved == [] && o.plan == None
    requires Plausible(cfg, w) && a == AnswersOf(o, cfg, w)
    ensures var n := AfterCalls(o, cfg, w, [Fence(a.fence)] + if a.fence == 0 then ContinuedCalls(a) else []);
            && n.dump == o.dump
            && (a.fence == 0 ==> n.devicesTried && exists i, j :: Underway(cfg, n, i, j))
            && (a.fence != 0 ==> n == o.Log([FenceCall(a.fence)]))
  {
    var f := o.Log([FenceCall(a.fence)]);
    assert AfterCalls(o, cfg, w, [Fence(a.fence)]) == f by {
      CallsOne(o, cfg, w, [], Fence(a.fence));
      assert [] + [Fence(a.fence)] == [Fence(a.fence)];
    }
    if a.fence == 0 {
      CallsConcat(o, cfg, w, [Fence(a.fence)], ContinuedCalls(a));
      AnswersIgnoreTrace(o, cfg, w, [FenceCall(a.fence)]);
      FencedUnderway(cfg, o);
      hide AnswersOf, ContinuedCalls, Underway;
      ContinueKeeps(cfg, f, w, a, |f.trace|, |f.trace|);
    } else {
      assert [Fence(a.fence)] + [] == [Fence(a.fence)];
    }
  }

  lemma FencedUnderway(cfg: OpsConfig, o: OpsState)
    requires OnlyFailedFences(o.trace) && !o.devicesTried && o.preserved == [] && o.plan == None
    ensures var f := o.Log([FenceCall(0)]); Underway(cfg, f, |f.trace|, |f.trace|)
  {
    var f := o.Log([FenceCall(0)]);
    var n := |f.trace|;
    assert f.trace[..n] == f.trace && f.trace[n..n] == [] && f.trace[n..] == [];
    assert f.trace[..n - 1] == o.trace;
  }

  /** The calls of a continued takeover carried out one by one are `AfterCalls`. */
  lemma ContinueInOrder(o: OpsState, cfg: OpsConfig, w: World)
    ensures var a := AnswersOf(o, cfg, w);
            var (o1, r1) := AfterAdopt(o, cfg, w);
            var (o2, r2) := AfterPreserve(o1, w);
            var (o3, r3) := AfterReap(o2, w);
            && a == Answers(w.fence, r1, r2, r3)
            && AfterCalls(o, cfg, w, ContinuedCalls(a)) == if r1 != 0 then o1 else if r2 != 0 then o2 else o3
  {
    hide AfterAdopt, AfterPreserve, AfterReap;
    var a := AnswersOf(o, cfg, w);
    var s1, s2 := [Adopt(a.adopt)], [Adopt(a.adopt), Preserve(a.preserve)];
    CallsOne(o, cfg, w, [], Adopt(a.adopt));
    CallsOne(o, cfg, w, s1, Preserve(a.preserve));
    CallsOne(o, cfg, w, s2, Reap(a.reap));
    assert [] + [Adopt(a.adopt)] == s1 && s1 + [Preserve(a.preserve)] == s2;
    assert a.adopt == 0 && a.preserve == 0 ==> ContinuedCalls(a) == s2 + [Reap(a.reap)];
    assert a.adopt == 0 && a.preserve != 0 ==> ContinuedCalls(a) == s2;
    assert a.adopt != 0 ==> ContinuedCalls(a) == s1;
    NoCalls(o, cfg, w);
  }

  /** A fence carried out first, and then the rest. */
  lemma BeginInOrder(o: OpsState, cfg: OpsConfig, w: World)
    ensures var a, f := AnswersOf(o, cfg, w), o.Log([FenceCall(w.fence)]);
            && AnswersOf(f, cfg, w) == a && a.fence == w.fence
            && AfterCalls(o, cfg, w, [Fence(a.fence)] + if a.fence == 0 then ContinuedCalls(a) else []) ==
               if w.fence == 0 then AfterCalls(f, cfg, w, ContinuedCalls(a)) else f
  {
    AnswersIgnoreTrace(o, cfg, w, [FenceCall(w.fence)]);
    var a := AnswersOf(o, cfg, w);
    assert a.fence == w.fence;
    hide AnswersOf, ContinuedCalls;
    CallsOne(o, cfg, w, [], Fence(a.fence));
    assert [] + [Fence(a.fence)] == [Fence(a.fence)];
    CallsConcat(o, cfg, w, [Fence(a.fence)], ContinuedCalls(a));
    assert [Fence(a.fence)] + [] == [Fence(a.fence)];
  }

  /** An event that makes no call. */
  ghost predicate Idle(s: System, n: System) {
    n.ops == s.ops && (n.machine.state == s.machine.state || (Watching(s.machine) && Watching(n.machine)))
  }

  /** An event that fences, and goes on if the fence succeeds. */
  ghost predicate Began(s: System, n: System, cfg: OpsConfig, w: World, a: Answers) {
    && s.machine.state in {Armed, Suspect, FenceFailed}
    && n.ops == AfterCalls(s.ops, cfg, w, [Fence(a.fence)] + if a.fence == 0 then ContinuedCalls(a) else [])
    && n.machine.state == if a.fence != 0 then FenceFailed else if a.adopt == 0 then TakenOver else Fenced
  }

  /** An event that retries the adoption. */
  ghost predicate WentOn(s: System, n: System, cfg: OpsConfig, w: World, a: Answers) {
    && s.machine.state == Fenced
    && n.ops == AfterCalls(s.ops, cfg, w, ContinuedCalls(a))
    && n.machine.state == if a.adopt == 0 then TakenOver else Fenced
  }

  lemma Suffix(s: seq<Call>, t: seq<Call>)
    ensures s <= s + t && (s + t)[|s|..] == t
  {
  }

  lemma AdvanceCases(s: System, tk: Config, cfg: OpsConfig, ev: Event, w: World)
    requires s.machine.state != Fencing
    ensures var a, n := AnswersOf(s.ops, cfg, w), Advance(s, tk, cfg, ev, w);
            Idle(s, n) || Began(s, n, cfg, w, a) || WentOn(s, n, cfg, w, a)
  {
    hide AnswersOf, ContinuedCalls, AfterCalls, Begun, Continued;
    var a, m := AnswersOf(s.ops, cfg, w), s.machine;
    BegunMakes(m, a);
    BegunMakes(m.(silent := Next32(m.silent)), a);
    ContinuedMakes(m, a);
    NoCalls(s.ops, cfg, w);
    Suffix(m.calls, []);
    assert m.calls + [] == m.calls;
    Suffix(m.calls, [Fence(a.fence)] + if a.fence == 0 then ContinuedCalls(a) else []);
    Suffix(m.calls, ContinuedCalls(a));
  }

  lemma NoCalls(o: OpsState, cfg: OpsConfig, w: World)
    ensures AfterCalls(o, cfg, w, []) == o
  {
  }

  lemma BeganSound(s: System, n: System, cfg: OpsConfig, w: World)
    requires Sound(s, cfg) && Plausible(cfg, w) && Began(s, n, cfg, w, AnswersOf(s.ops, cfg, w))
    ensures Sound(n, cfg) && n.ops.dump == s.ops.dump
  {
    hide AnswersOf, AfterCalls, ContinuedCalls, Underway, Plausible;
    BeginKeeps(cfg, s.ops, w, AnswersOf(s.ops, cfg, w));
  }

  lemma WentOnSound(s: System, n: System, cfg: OpsConfig, w: World)
    requires Sound(s, cfg) && Plausible(cfg, w) && WentOn(s, n, cfg, w, AnswersOf(s.ops, cfg, w))
    ensures Sound(n, cfg) && n.ops.dump == s.ops.dump
  {
    hide AnswersOf, AfterCalls, ContinuedCalls, Underway, Plausible;
    var i, j :| Underway(cfg, s.ops, i, j);
    ContinueKeeps(cfg, s.ops, w, AnswersOf(s.ops, cfg, w), i, j);
  }

  lemma AdvanceSound(s: System, tk: Config, cfg: OpsConfig, ev: Event, w: World)
    requires Sound(s, cfg) && Plausible(cfg, w)
    ensures Sound(Advance(s, tk, cfg, ev, w), cfg) && Advance(s, tk, cfg, ev, w).ops.dump == s.ops.dump
  {
    var n := Advance(s, tk, cfg, ev, w);
    NotResting(s, cfg);
    AdvanceCases(s, tk, cfg, ev, w);
    hide Advance, AnswersOf, Began, WentOn, Idle, Sound, Plausible;
    if Began(s, n, cfg, w, AnswersOf(s.ops, cfg, w)) {
      BeganSound(s, n, cfg, w);
    } else if WentOn(s, n, cfg, w, AnswersOf(s.ops, cfg, w)) {
      WentOnSound(s, n, cfg, w);
    } else {
      IdleSound(s, n, cfg);
    }
  }

  lemma NotResting(s: System, cfg: OpsConfig)
    requires Sound(s, cfg)
    ensures s.machine.state != Fencing
  {
  }

  lemma IdleSound(s: System, n: System, cfg: OpsConfig)
    requires Sound(s, cfg) && Idle(s, n)
    ensures Sound(n, cfg) && n.ops.dump == s.ops.dump
  {
  }

  // ---------------------------------------------------------------- whole runs

  /** Every run of the machine and its operations: any events, any answers. */
  function SystemRun(tk: Config, cfg: OpsConfig, dump: bool, network: bool, inputs: seq<(Event, World)>): System {
    if inputs == [] then System(Initial, Fresh(dump, network))
    else
      var (ev, w) := inputs[|inputs| - 1];
      Advance(SystemRun(tk, cfg, dump, network, inputs[..|inputs| - 1]), tk, cfg, ev, w)
  }

  ghost predicate PlausibleInputs(cfg: OpsConfig, inputs: seq<(Event, World)>) {
    forall k :: 0 <= k < |inputs| ==> Plausible(cfg, inputs[k].1)
  }

  lemma {:induction false} RunSound(tk: Config, cfg: OpsConfig, dump: bool, network: bool, inputs: seq<(Event, World)>)
    requires PlausibleInputs(cfg, inputs)
    ensures var s := SystemRun(tk, cfg, dump, network, inputs); Sound(s, cfg) && s.ops.dump == dump
    decreases |inputs|
  {
    hide Advance, Plausible;
    if inputs != [] {
      var most := inputs[..|inputs| - 1];
      RunSound(tk, cfg, dump, network, most);
      AdvanceSound(SystemRun(tk, cfg, dump, network, most), tk, cfg, inputs[|inputs| - 1].0, inputs[|inputs| - 1].1);
    }
  }

  /** No event changes what is configured. */
  lemma AdvanceConfig(s: System, tk: Config, cfg: OpsConfig, ev: Event, w: World)
    ensures var n := Advance(s, tk, cfg, ev, w); n.ops.dump == s.ops.dump && n.ops.network == s.ops.network
  {
    hide Handled, AnswersOf, AfterCalls;
    var m := Handled(s.machine, tk, ev, AnswersOf(s.ops, cfg, w));
    CallsConfig(s.ops, cfg, w, if s.machine.calls <= m.calls then m.calls[|s.machine.calls|..] else []);
  }

  lemma {:induction false} CallsConfig(o: OpsState, cfg: OpsConfig, w: World, calls: seq<Call>)
    ensures var n := AfterCalls(o, cfg, w, calls); n.dump == o.dump && n.network == o.network
    decreases |calls|
  {
    if calls != [] { CallsConfig(o, cfg, w, calls[..|calls| - 1]); }
  }

  /** A machine that still watches made no call, so no answer mattered. */
  lemma StillWatching(m: Machine, tk: Config, ev: Event, a: Answers, a2: Answers)
    requires Watching(Handled(m, tk, ev, a)) && m.state != Fencing
    ensures Watching(m) && Handled(m, tk, ev, a).calls == m.calls && Handled(m, tk, ev, a2) == Handled(m, tk, ev, a)
  {
    hide Begun, Continued;
    BegunForward(m, a);
    BegunForward(m.(silent := Next32(m.silent)), a);
    ContinuedForward(m, a);
  }

  /** A run that still watches has touched nothing, and runs the same whatever is configured. */
  lemma {:induction false} WatchingRun(tk: Config, cfg: OpsConfig, dump: bool, network: bool,
                                       inputs: seq<(Event, World)>, dump2: bool, network2: bool)
    requires Watching(SystemRun(tk, cfg, dump, network, inputs).machine)
    ensures var s := SystemRun(tk, cfg, dump, network, inputs);
            && s.ops == Fresh(dump, network)
            && SystemRun(tk, cfg, dump2, network2, inputs) == System(s.machine, Fresh(dump2, network2))
    decreases |inputs|
  {
    hide AnswersOf, Handled;
    if inputs != [] {
      var most := inputs[..|inputs| - 1];
      var (ev, w) := inputs[|inputs| - 1];
      var s := SystemRun(tk, cfg, dump, network, most);
      NeverFencing(tk, cfg, dump, network, most);
      var a2 := AnswersOf(Fresh(dump2, network2), cfg, w);
      StillWatching(s.machine, tk, ev, AnswersOf(s.ops, cfg, w), a2);
      WatchingRun(tk, cfg, dump, network, most, dump2, network2);
    }
  }

  lemma {:induction false} NeverFencing(tk: Config, cfg: OpsConfig, dump: bool, network: bool,
                                        inputs: seq<(Event, World)>)
    ensures SystemRun(tk, cfg, dump, network, inputs).machine.state != Fencing
    decreases |inputs|
  {
    if inputs != [] {
      var most := inputs[..|inputs| - 1];
      var (ev, w) := inputs[|inputs| - 1];
      NeverFencing(tk, cfg, dump, network, most);
      var s := SystemRun(tk, cfg, dump, network, most);
      HandledForward(s.machine, tk, ev, AnswersOf(s.ops, cfg, w));
    }
  }
}
