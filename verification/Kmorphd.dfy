/**
 * The objects of kmorphd that change in place: `struct ops`, `struct takeover` and
 * `struct daemon`, each held to the value-level step it performs.
 */
module Kmorphd {
  import opened Errno
  import opened Options
  import opened Bytes
  import opened Ranges
  import opened RangeSets
  import opened Records
  import opened Plans
  import opened Effects
  import opened Devices
  import opened Machines
  import opened Operations
  import opened Daemons
  import opened Safety
  import opened Completion

  /** What the kernel answers during one event. `own` is the RAM it reports as this kernel's. */
  datatype Kernel = Kernel(
    fence: int, devices: DeviceWorld, ownRet: int, own: RangeSet, granuleRet: int, granule: Word64,
    offer: int, dump: int, reap: int)

  ghost predicate Answering(k: Kernel)
    reads k.own, k.own.r
  {
    k.own.Valid() && (k.granuleRet == 0 ==> k.granule > 0)
  }

  /** The world an event met, once it is known how planning and copying went. */
  ghost function Met(k: Kernel, plan: PlanAnswer, copy: int, partial: seq<Range>): World {
    World(k.fence, k.devices, plan, copy, partial, k.offer, k.dump, k.reap)
  }

  /** A world in which nothing was planned. */
  ghost function Unplanned(k: Kernel): World {
    Met(k, NoPlan(-1, NoAttempt), 0, [])
  }

  lemma UnplannedPlausible(k: Kernel, cfg: OpsConfig)
    ensures Plausible(cfg, Unplanned(k)) && Meets(Unplanned(k), k)
  {
  }

  /** The world answers what the kernel answers. */
  ghost predicate Meets(w: World, k: Kernel) {
    w == Met(k, w.plan, w.copy, w.partial)
  }

  class Ops {
    const cfg: OpsConfig
    const host: RangeSet
    const reserved: RangeSet
    const file: File
    var dump: bool
    var network: bool
    var devicesTried: bool
    var plan: Option<Plan>
    var adoptable: RangeSet
    var preserved: RangeSet
    var trace: seq<Effect>

    ghost predicate Valid()
      reads this, host, host.r, reserved, reserved.r, adoptable, adoptable.r, preserved, preserved.r, file
    {
      && host.Valid() && host.Contents() == cfg.host
      && reserved.Valid() && reserved.Contents() == cfg.reserved
      && adoptable.Valid() && preserved.Valid()
      && (plan.Some? ==> plan.value.adoptable == adoptable.Contents())
      && file.text == RecordAfter(cfg.record, trace)
    }

    ghost function View(): OpsState
      requires Valid()
      reads this, host, host.r, reserved, reserved.r, adoptable, adoptable.r, preserved, preserved.r, file
    {
      OpsState(dump, network, devicesTried, plan, preserved.Contents(), trace)
    }

    constructor (cfg: OpsConfig, host: RangeSet, reserved: RangeSet, file: File, dump: bool, network: bool)
      requires host.Valid() && host.Contents() == cfg.host && reserved.Valid() && reserved.Contents() == cfg.reserved
      requires file.text == cfg.record
      ensures Valid() && View() == Fresh(dump, network)
      ensures this.cfg == cfg
    {
      this.cfg, this.host, this.reserved, this.file := cfg, host, reserved, file;
      this.dump, this.network := dump, network;
      devicesTried, plan, trace := false, None, [];
      adoptable := new RangeSet();
      preserved := new RangeSet();
    }

    method Fence(k: Kernel) returns (ret: int)
      requires Valid()
      modifies this
      ensures Valid() && ret == k.fence && View() == old(View()).Log([FenceCall(ret)])
    {
      hide RecordAfter, Canonical, AttemptOf;
      ret := k.fence;
      RecordSame(cfg.record, trace, FenceCall(ret));
      trace := trace + [FenceCall(ret)];
    }

    /** Nothing crashed: the memory is taken over without a dump. */
    method ForgetDump()
      requires Valid()
      modifies this`dump
      ensures Valid() && View() == old(View()).(dump := false)
    {
      dump := false;
    }

    /** The predecessor sent its network identity. */
    method KeepNetwork()
      requires Valid()
      modifies this`network
      ensures Valid() && View() == old(View()).(network := true)
    {
      network := true;
    }

    /** The own RAM and the granule are read anew, and everything is computed from scratch. */
    method ComputePlan(k: Kernel) returns (ret: int, p: Plan, found: RangeSet)
      requires Valid() && Answering(k)
      modifies file
      ensures fresh(found) && fresh(found.r) && found.Valid()
      ensures found.Contents() == if ret == 0 then p.adoptable else []
      ensures file.text == AfterAttempt(old(file.text), p.attempt)
      ensures ret == 0 ==> p.host == cfg.host && p.reserved == cfg.reserved
      ensures ret == 0 ==> Planned(p, cfg.hostCpus, cfg.ownCpus, cfg.next, cfg.hasPath)
      ensures ret != 0 && p.attempt.Attempt? ==> WholeAttempt(p.attempt) && p.attempt.claim.size == 0
    {
      hide Planned, Canonical, RecordAfter, ClaimText, Recordable;
      p := Plan([], [], [], 0, [], [], [], NoAttempt);
      ret := k.ownRet;
      if ret == 0 {
        ret, p, found := Plans.PlanAdoption(
          host, cfg.hostCpus, k.own, reserved, cfg.ownCpus, k.granuleRet, k.granule, cfg.next, cfg.hasPath, file);
        if ret == 0 {
          return;
        }
      }
      found := new RangeSet();
    }

    /** The plan computed takes the place of the old one; without one nothing is adoptable. */
    method PlanAdoption(k: Kernel) returns (ret: int, ghost answer: PlanAnswer)
      requires Valid() && Answering(k)
      modifies this, file
      ensures Valid() && fresh(adoptable) && preserved == old(preserved)
      ensures ret == 0 <==> answer.Made?
      ensures Plausible(cfg, Met(k, answer, 0, []))
      ensures (answer.NoPlan? ==> answer.ret == ret) && View() == Replanned(old(View()), answer)
    {
      hide Planned, Canonical, RecordAfter, AfterAttempt, WholeAttempt;
      var p;
      ret, p, adoptable := ComputePlan(k);
      answer := if ret == 0 then Made(p) else NoPlan(ret, p.attempt);
      var e := if ret == 0 then PlanMade(p) else PlanFailed(ret, p.attempt);
      RecordStep(cfg.record, trace, e);
      plan, trace := if ret == 0 then Some(p) else None, trace + [e];
    }

    /** The device pass, tried once in the life of the daemon. */
    method TakeDevices(k: Kernel)
      requires Valid()
      modifies this`devicesTried, this`trace
      ensures Valid() && View() == DevicesTaken(old(View()), cfg, k.devices)
    {
      hide PassTrace;
      if !devicesTried {
        devicesTried := true;
        var first, log, adopted := AdoptDevices(cfg.devices, k.devices);
        if network {
          log := log + [RestoreNetwork];
        }
        assert log == PassTrace(cfg.devices, k.devices) + if network then [RestoreNetwork] else [];
        PassUnplanned(cfg, k.devices, network);
        RecordUntouched(cfg.record, trace, log);
        trace := trace + log;
      }
    }

    /** With a dump to write, the adoptable memory is copied aside instead of offered. */
    method HoldBack() returns (ret: int)
      requires Valid() && plan.Some?
      modifies this`preserved
      ensures Valid() && View() == old(View()).(preserved := View().preserved)
      ensures ret == 0 ==> View().preserved == plan.value.adoptable
    {
      hide Canonical;
      var held := new RangeSet();
      ret := held.Copy(adoptable);
      preserved := held;
    }

    /** `ops_adopt`. What planning and copying came to is in `w`. */
    method Adopt(k: Kernel) returns (ret: int, ghost w: World)
      requires Valid() && Answering(k)
      modifies this, file
      ensures Valid() && Plausible(cfg, w) && Meets(w, k)
      ensures View() == AfterAdopt(old(View()), cfg, w).0 && ret == AfterAdopt(old(View()), cfg, w).1
    {
      hide DevicesTaken, Planned, Canonical, Replanned, RecordAfter;
      ghost var o := View();
      TakeDevices(k);
      ghost var d := View();
      ghost var answer;
      ret, answer := PlanAdoption(k);
      ghost var n := View();
      w := Met(k, answer, 0, []);
      AdoptIs(o, d, n, cfg, w);
      if ret != 0 {
        return;
      }
      MadeIs(d, answer);
      var memory := plan.value.adoptable;
      if dump {
        ret := HoldBack();
        w := Met(k, answer, ret, View().preserved);
        AdoptIs(o, d, n, cfg, w);
        if ret != 0 {
          return;
        }
        memory := [];
      }
      ret := k.offer;
      RecordSame(cfg.record, trace, Offer(plan.value.cpus, memory, ret));
      trace := trace + [Offer(plan.value.cpus, memory, ret)];
    }

    method Preserve(k: Kernel, ghost w: World) returns (ret: int)
      requires Valid() && Meets(w, k)
      modifies this`trace
      ensures Valid() && View() == AfterPreserve(old(View()), w).0 && ret == AfterPreserve(old(View()), w).1
    {
      hide RecordAfter, Canonical;
      if !dump || preserved.count == 0 || plan.None? {
        return 0;
      }
      ret := k.dump;
      RecordSame(cfg.record, trace, Dump(plan.value.memory, ret));
      trace := trace + [Dump(plan.value.memory, ret)];
    }

    method Reap(k: Kernel, ghost w: World) returns (ret: int)
      requires Valid() && Meets(w, k)
      modifies this`trace, this`preserved
      ensures Valid() && View() == AfterReap(old(View()), w).0 && ret == AfterReap(old(View()), w).1
    {
      hide RecordAfter, Canonical;
      if preserved.count == 0 {
        return 0;
      }
      ret := k.reap;
      RecordSame(cfg.record, trace, Offer([], preserved.Contents(), ret));
      trace := trace + [Offer([], preserved.r[..preserved.count], ret)];
      if ret == 0 {
        preserved := new RangeSet();
      }
    }
  }

  lemma AdoptIs(o: OpsState, d: OpsState, n: OpsState, cfg: OpsConfig, w: World)
    requires d == DevicesTaken(o, cfg, w.devices) && n == Replanned(d, w.plan)
    ensures AfterAdopt(o, cfg, w) ==
            if w.plan.NoPlan? then (n, w.plan.ret)
            else
              var p := w.plan.plan;
              if !o.dump then (n.Log([Offer(p.cpus, p.adoptable, w.offer)]), w.offer)
              else if w.copy != 0 then (n.(preserved := w.partial), w.copy)
              else (n.(preserved := p.adoptable).Log([Offer(p.cpus, [], w.offer)]), w.offer)
  {
    hide DevicesTaken, Replanned;
  }

  lemma MadeIs(d: OpsState, answer: PlanAnswer)
    requires answer.Made?
    ensures Replanned(d, answer).plan == Some(answer.plan) && Replanned(d, answer).dump == d.dump
  {
  }

  /** Nothing in a device pass is planning. */
  lemma PassUnplanned(cfg: OpsConfig, w: DeviceWorld, network: bool)
    ensures forall e :: e in PassTrace(cfg.devices, w) + (if network then [RestoreNetwork] else []) ==> !IsPlanning(e)
  {
    hide PassTrace;
    PassIsOrdered(cfg.devices, w);
    forall e | e in PassTrace(cfg.devices, w) ensures !IsPlanning(e) {
      assert Phase(e) >= 0;
    }
  }

  // ---------------------------------------------------------------- the state machine

  /** `Advance` names the calls by what is new in the log; here they are. */
  lemma AdvanceIs(s: System, tk: Config, cfg: OpsConfig, ev: Event, w: World, made: seq<Call>)
    requires Handled(s.machine, tk, ev, AnswersOf(s.ops, cfg, w)).calls == s.machine.calls + made
    ensures Advance(s, tk, cfg, ev, w) ==
            System(Handled(s.machine, tk, ev, AnswersOf(s.ops, cfg, w)), AfterCalls(s.ops, cfg, w, made))
  {
    Suffix(s.machine.calls, made);
  }

  class Takeover {
    const cfg: Config
    const ops: Ops
    var state: State
    var silent: Word32
    var attempts: Word32
    var lastError: int
    var calls: seq<Call>
    var announced: seq<State>

    ghost function View(): Machine
      reads this
    {
      Machine(state, silent, attempts, lastError, calls, announced)
    }

    constructor (cfg: Config, ops: Ops)
      ensures View() == Initial && this.cfg == cfg && this.ops == ops
    {
      this.cfg, this.ops := cfg, ops;
      state, silent, attempts, lastError, calls, announced := Armed, 0, 0, 0, [], [];
    }

    method SetState(s: State)
      modifies this`state, this`announced
      ensures View() == old(View()).Enter(s)
    {
      state := s;
      announced := announced + [s];
    }

    method Record(c: Call)
      modifies this`lastError, this`calls
      ensures View() == old(View()).Step(c)
    {
      lastError := c.ret;
      calls := calls + [c];
    }

    /** After a successful adoption: preserve, reap unless that failed, and it is done. */
    method Finish(k: Kernel, ghost w: World)
      requires ops.Valid() && Meets(w, k)
      modifies this, ops`trace, ops`preserved
      ensures ops.Valid()
      ensures var (o2, r2) := AfterPreserve(old(ops.View()), w);
              var (o3, r3) := AfterReap(o2, w);
              var m := old(View()).Step(Call.Preserve(r2));
              && ops.View() == (if r2 == 0 then o3 else o2)
              && View() == (if r2 == 0 then m.Step(Call.Reap(r3)) else m).Enter(TakenOver)
    {
      hide AfterPreserve, AfterReap, Ops.Valid, Meets;
      var ret := ops.Preserve(k, w);
      Record(Call.Preserve(ret));
      if ret == 0 {
        ret := ops.Reap(k, w);
        Record(Call.Reap(ret));
      }
      SetState(TakenOver);
    }

    /** `continue_takeover`. */
    method ContinueTakeover(k: Kernel) returns (ghost w: World)
      requires ops.Valid() && Answering(k)
      modifies this, ops, ops.file
      ensures ops.Valid() && Plausible(ops.cfg, w) && Meets(w, k)
      ensures var o := old(ops.View()); var a := AnswersOf(o, ops.cfg, w);
              View() == Continued(old(View()), a) && ops.View() == AfterCalls(o, ops.cfg, w, ContinuedCalls(a))
    {
      hide AfterAdopt, AfterPreserve, AfterReap, AfterCalls, AnswersOf, ContinuedCalls, Plausible, Ops.Valid, Meets;
      ghost var o := ops.View();
      var ret;
      ret, w := ops.Adopt(k);
      ContinueInOrder(o, ops.cfg, w);
      Record(Call.Adopt(ret));
      if ret == 0 {
        Finish(k, w);
      }
    }

    /** `begin_takeover`. */
    method BeginTakeover(k: Kernel) returns (ghost w: World)
      requires ops.Valid() && Answering(k)
      modifies this, ops, ops.file
      ensures ops.Valid() && Plausible(ops.cfg, w) && Meets(w, k)
      ensures var o := old(ops.View()); var a := AnswersOf(o, ops.cfg, w);
              && View() == Begun(old(View()), a)
              && ops.View() ==
                 AfterCalls(o, ops.cfg, w, [Call.Fence(a.fence)] + if a.fence == 0 then ContinuedCalls(a) else [])
    {
      hide AfterCalls, AnswersOf, ContinuedCalls, Continued, Ops.Valid;
      ghost var o := ops.View();
      SetState(Fencing);
      attempts := Next32(attempts);
      var ret := ops.Fence(k);
      Record(Call.Fence(ret));
      if ret != 0 {
        w := Unplanned(k);
        SetState(FenceFailed);
      } else {
        SetState(Fenced);
        w := ContinueTakeover(k);
      }
      BeginInOrder(o, ops.cfg, w);
    }

    /** `takeover_handle`. */
    method Handle(ev: Event, k: Kernel) returns (ghost w: World)
      requires ops.Valid() && Answering(k)
      modifies this, ops, ops.file
      ensures ops.Valid() && Plausible(ops.cfg, w)
      ensures System(View(), ops.View()) == Advance(old(System(View(), ops.View())), cfg, ops.cfg, ev, w)
    {
      hide AfterCalls, AnswersOf, ContinuedCalls, Continued, Begun, Ops.Valid, Advance;
      ghost var s := System(View(), ops.View());
      w := Unplanned(k);
      match state {
        case Armed => w := HandleWatching(ev, k);
        case Suspect => w := HandleWatching(ev, k);
        case FenceFailed =>
          if ev != ProbeAlive && attempts <= cfg.fenceRetries {
            w := BeginTakeover(k);
            BeginAdvances(s, cfg, ops.cfg, ev, w, s.machine);
          } else {
            NothingAdvances(s, cfg, ops.cfg, ev, w);
          }
        case Fenced =>
          w := ContinueTakeover(k);
          ContinueAdvances(s, cfg, ops.cfg, ev, w);
        case Fencing => NothingAdvances(s, cfg, ops.cfg, ev, w);
        case TakenOver => NothingAdvances(s, cfg, ops.cfg, ev, w);
      }
    }

    /** `handle_watching`. */
    method HandleWatching(ev: Event, k: Kernel) returns (ghost w: World)
      requires ops.Valid() && Answering(k) && (state == Armed || state == Suspect)
      modifies this, ops, ops.file
      ensures ops.Valid() && Plausible(ops.cfg, w)
      ensures System(View(), ops.View()) == Advance(old(System(View(), ops.View())), cfg, ops.cfg, ev, w)
    {
      hide AfterCalls, AnswersOf, ContinuedCalls, Continued, Begun, Ops.Valid, Advance;
      ghost var s := System(View(), ops.View());
      w := Unplanned(k);
      match ev {
        case ProbeAlive =>
          silent := 0;
          if state != Armed {
            SetState(Armed);
          }
          NothingAdvances(s, cfg, ops.cfg, ev, w);
        case ProbeSilent =>
          silent := Next32(silent);
          if silent >= cfg.probeTimeouts {
            ghost var m := View();
            w := BeginTakeover(k);
            BeginAdvances(s, cfg, ops.cfg, ev, w, m);
          } else {
            if state != Suspect {
              SetState(Suspect);
            }
            NothingAdvances(s, cfg, ops.cfg, ev, w);
          }
        case Request =>
          if state == Armed {
            w := BeginTakeover(k);
            BeginAdvances(s, cfg, ops.cfg, ev, w, s.machine);
          } else {
            NothingAdvances(s, cfg, ops.cfg, ev, w);
          }
      }
    }
  }

  lemma BeginAdvances(s: System, tk: Config, cfg: OpsConfig, ev: Event, w: World, m: Machine)
    requires Handled(s.machine, tk, ev, AnswersOf(s.ops, cfg, w)) == Begun(m, AnswersOf(s.ops, cfg, w))
    requires m.calls == s.machine.calls
    ensures var a := AnswersOf(s.ops, cfg, w);
            Advance(s, tk, cfg, ev, w) == System(Begun(m, a), AfterCalls(s.ops, cfg, w,
              [Fence(a.fence)] + if a.fence == 0 then ContinuedCalls(a) else []))
  {
    hide AfterCalls, AnswersOf, ContinuedCalls, Begun, Handled;
    var a := AnswersOf(s.ops, cfg, w);
    BegunMakes(m, a);
    AdvanceIs(s, tk, cfg, ev, w, [Fence(a.fence)] + if a.fence == 0 then ContinuedCalls(a) else []);
  }

  lemma ContinueAdvances(s: System, tk: Config, cfg: OpsConfig, ev: Event, w: World)
    requires s.machine.state == Fenced
    ensures var a := AnswersOf(s.ops, cfg, w);
            Advance(s, tk, cfg, ev, w) ==
            System(Continued(s.machine, a), AfterCalls(s.ops, cfg, w, ContinuedCalls(a)))
  {
    hide AfterCalls, AnswersOf, ContinuedCalls, Continued;
    var a := AnswersOf(s.ops, cfg, w);
    ContinuedMakes(s.machine, a);
    AdvanceIs(s, tk, cfg, ev, w, ContinuedCalls(a));
  }

  lemma NothingAdvances(s: System, tk: Config, cfg: OpsConfig, ev: Event, w: World)
    requires Handled(s.machine, tk, ev, AnswersOf(s.ops, cfg, w)).calls == s.machine.calls
    ensures Advance(s, tk, cfg, ev, w) == System(Handled(s.machine, tk, ev, AnswersOf(s.ops, cfg, w)), s.ops)
  {
    hide AfterCalls, AnswersOf, Handled;
    assert s.machine.calls + [] == s.machine.calls;
    AdvanceIs(s, tk, cfg, ev, w, []);
    NoCalls(s.ops, cfg, w);
  }

  // ---------------------------------------------------------------- the daemon

  class Process {
    const tk: Takeover
    const ops: Ops
    var lastResult: ProbeResult
    var lastError: int
    var reported: bool
    var pending: bool
    var handedOver: bool
    ghost var seen: seq<Sighting>
    ghost var fed: seq<Input>
    ghost var met: seq<(Event, World)>
    ghost var late: nat
    ghost const dump0: bool
    ghost const network0: bool
    ghost var history: seq<Wakeup>

    /** The parts belong together; this holds in the middle of a wakeup too. */
    ghost predicate Wired()
      reads this, tk, ops, ops.host, ops.host.r, ops.reserved, ops.reserved.r, ops.adoptable, ops.adoptable.r,
            ops.preserved, ops.preserved.r, ops.file
    {
      tk.ops == ops && ops.Valid() && (!reported ==> lastResult == ProbeResult.Error)
    }

    /** Between wakeups the process is where a run through all of them leads. */
    ghost predicate Valid()
      reads this, tk, ops, ops.host, ops.host.r, ops.reserved, ops.reserved.r, ops.adoptable, ops.adoptable.r,
            ops.preserved, ops.preserved.r, ops.file
    {
      Wired() && View() == DaemonRun(Setup(), dump0, network0, history) && PlausibleRun(Setup(), history)
    }

    ghost function View(): Daemon
      requires Wired()
      reads this, tk, ops, ops.host, ops.host.r, ops.reserved, ops.reserved.r, ops.adoptable, ops.adoptable.r,
            ops.preserved, ops.preserved.r, ops.file
    {
      Daemon(System(tk.View(), ops.View()), lastResult, pending, handedOver, seen, fed, met, late)
    }

    ghost function Setup(): Settings {
      Settings(tk.cfg, ops.cfg)
    }

    constructor (tk: Takeover, ops: Ops)
      requires tk.ops == ops && ops.Valid() && tk.View() == Initial
      requires ops.View() == Fresh(ops.dump, ops.network)
      ensures Valid() && this.tk == tk && this.ops == ops && history == []
      ensures dump0 == ops.dump && network0 == ops.network
    {
      this.tk, this.ops, dump0, network0, history := tk, ops, ops.dump, ops.network, [];
      lastResult, lastError, reported, pending, handedOver := ProbeResult.Error, 0, false, false, false;
      seen, fed, met, late := [], [], [], 0;
    }

    /** A wakeup is over and goes into the history. */
    ghost method Remember(d: Daemon, e: Wakeup)
      requires Wired() && View() == Wake(d, Setup(), e) && PlausibleWakeup(Setup(), e)
      requires d == DaemonRun(Setup(), dump0, network0, history) && PlausibleRun(Setup(), history)
      modifies this`history
      ensures Valid() && View() == old(View()) && history == old(history) + [e]
    {
      hide DaemonRun, PlausibleRun, PlausibleWakeup, Wake, Ops.Valid;
      HistoryGrows(Setup(), dump0, network0, history, e);
      history := history + [e];
    }

    method Feed(ev: Event, k: Kernel) returns (ghost w: World)
      requires Wired() && Answering(k)
      modifies this`fed, this`met, tk, ops, ops.file
      ensures Wired() && Plausible(ops.cfg, w) && View() == Daemons.Feed(old(View()), Setup(), ev, w)
    {
      hide Advance, AnswersOf, Ops.Valid, Plausible;
      ghost var o := ops.View();
      w := tk.Handle(ev, k);
      fed := fed + [Input(ev, AnswersOf(o, ops.cfg, w))];
      met := met + [(ev, w)];
    }

    method Note(r: ProbeResult, err: int)
      requires Wired()
      modifies this`lastResult, this`reported, this`lastError, this`seen, this`late
      ensures Wired()
      ensures View() == old(View()).(lastResult := r, seen := old(seen) + [Probed(r)],
                                     late := old(late) + if old(Watching(tk.View())) then 0 else 1)
    {
      hide Ops.Valid;
      late := late + if Watching(tk.View()) then 0 else 1;
      seen := seen + [Probed(r)];
      if r != lastResult || !reported || (r == ProbeResult.Error && err != lastError) {
        lastResult := r;
        reported := true;
      }
      lastError := err;
    }

    /** `deliver_probe`: the result is noted when it is news, and always acted on. */
    method DeliverProbe(err: int, k: Kernel) returns (ghost w: World)
      requires Wired() && Answering(k)
      modifies this, tk, ops, ops.file
      ensures history == old(history)
      ensures Wired() && Plausible(ops.cfg, w) && View() == Deliver(old(View()), Setup(), err, w)
    {
      hide Daemons.Feed, Classify, Ops.Valid, Plausible;
      UnplannedPlausible(k, ops.cfg);
      var r := Classify(err);
      Note(r, err);
      w := Unplanned(k);
      if r == Alive {
        w := Feed(ProbeAlive, k);
      } else if r == Silent {
        w := Feed(ProbeSilent, k);
      }
    }

    /** The second half of a tick: a new probe, or its immediate failure. */
    method StartProbe(launch: Launch, k: Kernel) returns (ghost w: World)
      requires Wired() && Answering(k)
      modifies this, tk, ops, ops.file
      ensures history == old(history)
      ensures Wired() && Plausible(ops.cfg, w)
      ensures View() == match launch
                        case Launched => old(View()).(pending := true)
                        case Refused(err) => Deliver(old(View()), Setup(), err, w)
                        case NotPolled => Deliver(old(View()), Setup(), EIO, w)
    {
      hide Deliver, Ops.Valid, Plausible;
      UnplannedPlausible(k, ops.cfg);
      w := Unplanned(k);
      match launch {
        case Launched => pending := true;
        case Refused(err) => w := DeliverProbe(err, k);
        case NotPolled => w := DeliverProbe(EIO, k);
      }
    }

    method Ticked(readable: bool, launch: Launch, k: Kernel, k2: Kernel) returns (ghost w: World, ghost w2: World)
      requires Wired() && Answering(k) && Answering(k2)
      modifies this, tk, ops, ops.file
      ensures history == old(history)
      ensures Wired() && Plausible(ops.cfg, w) && Plausible(ops.cfg, w2)
      ensures View() == Wake(old(View()), Setup(), Tick(readable, launch, w, w2))
    {
      hide Deliver, Ops.Valid, Plausible, Answering, Ops.View, Unplanned;
      UnplannedPlausible(k, ops.cfg);
      UnplannedPlausible(k2, ops.cfg);
      w, w2 := Unplanned(k), Unplanned(k2);
      if readable && (tk.state == Armed || tk.state == Suspect) {
        if pending {
          pending := false;
          w := DeliverProbe(ETIMEDOUT, k);
        }
        w2 := StartProbe(launch, k2);
      }
    }

    /** `on_tick`. */
    method OnTick(readable: bool, launch: Launch, k: Kernel, k2: Kernel) returns (ghost w: World, ghost w2: World)
      requires Valid() && Answering(k) && Answering(k2)
      modifies this, tk, ops, ops.file
      ensures Valid() && history == old(history) + [Tick(readable, launch, w, w2)]
      ensures View() == Wake(old(View()), Setup(), Tick(readable, launch, w, w2))
    {
      hide DaemonRun, PlausibleRun, Wake, Ops.Valid, Plausible;
      w, w2 := Ticked(readable, launch, k, k2);
      Remember(old(View()), Tick(readable, launch, w, w2));
    }

    /** `on_probe_ready`, reached only through the pending probe's descriptor. */
    method OnProbeReady(err: int, k: Kernel) returns (ghost w: World)
      requires Valid() && Answering(k) && pending
      modifies this, tk, ops, ops.file
      ensures Valid() && history == old(history) + [Ready(err, w)]
      ensures View() == Wake(old(View()), Setup(), Ready(err, w))
    {
      hide Deliver, Ops.Valid, Plausible, PlausibleRun, DaemonRun;
      pending := false;
      w := DeliverProbe(err, k);
      Remember(old(View()), Ready(err, w));
    }

    /** `take_handover`. */
    method TakeHandover(k: Kernel) returns (ghost w: World)
      requires Wired() && Answering(k) && tk.state == Armed && lastResult == Alive
      modifies this, tk, ops, ops.file
      ensures history == old(history)
      ensures Wired() && Plausible(ops.cfg, w) && View() == Daemons.OnHandover(old(View()), Setup(), w)
    {
      hide Advance, AnswersOf, Plausible, Ops.Valid;
      handedOver := true;
      seen := seen + [HandedOver];
      ops.ForgetDump();
      w := Feed(Request, k);
    }

    /** `answer_handover` and, when accepted, `take_handover`. */
    method OnHandover(k: Kernel) returns (accepted: bool, ghost w: World)
      requires Valid() && Answering(k)
      modifies this, tk, ops, ops.file
      ensures Valid() && history == old(history) + [HandoverRequest(w)]
      ensures View() == Wake(old(View()), Setup(), HandoverRequest(w))
      ensures accepted <==> old(tk.state == Armed && lastResult == Alive)
    {
      hide Daemons.Feed, Plausible, Ops.Valid, DaemonRun, PlausibleRun;
      UnplannedPlausible(k, ops.cfg);
      w := Unplanned(k);
      accepted := tk.state == Armed && lastResult == Alive;
      if accepted {
        w := TakeHandover(k);
      }
      Remember(old(View()), HandoverRequest(w));
    }

    /** `answer_network`: a well-formed identity is kept while the predecessor is still watched. */
    method OnNetwork(wellFormed: bool) returns (kept: bool)
      requires Valid()
      modifies this`history, ops`network
      ensures Valid() && history == old(history) + [NetworkRequest(wellFormed)]
      ensures View() == Wake(old(View()), Setup(), NetworkRequest(wellFormed))
      ensures kept <==> wellFormed && old(tk.state == Armed || tk.state == Suspect)
    {
      hide Ops.Valid, DaemonRun, PlausibleRun;
      kept := wellFormed && (tk.state == Armed || tk.state == Suspect);
      if kept {
        ops.KeepNetwork();
      }
      Remember(old(View()), NetworkRequest(wellFormed));
    }
  }

  lemma HistoryGrows(g: Settings, dump: bool, network: bool, history: seq<Wakeup>, e: Wakeup)
    requires PlausibleRun(g, history) && PlausibleWakeup(g, e)
    ensures PlausibleRun(g, history + [e])
    ensures DaemonRun(g, dump, network, history + [e]) == Wake(DaemonRun(g, dump, network, history), g, e)
  {
    hide Wake, PlausibleWakeup;
    assert (history + [e])[..|history|] == history;
  }

  /**
   * What a process has done to the machine, whatever woke it and whatever the kernel answered:
   * its effects are safe, it left the watching states exactly when a sighting justified
   * it, it dumps only as configured and never after a handover, and a takeover it calls
   * complete is.
   */
  lemma ProcessSafe(p: Process)
    requires p.Valid()
    ensures SafeTrace(p.ops.cfg, p.dump0 && !p.handedOver, p.ops.trace)
    ensures Watching(p.tk.View()) <==> !Justified(p.Setup(), p.seen)
    ensures p.ops.dump == (p.dump0 && !p.handedOver)
    ensures p.tk.state == TakenOver ==> Completed(p.ops.View())
    ensures p.ops.file.text == RecordAfter(p.ops.cfg.record, p.ops.trace)
  {
    hide DaemonRun, SafeTrace, Justified, Completed;
    DaemonSafe(p.Setup(), p.dump0, p.network0, p.history);
    DaemonEvidence(p.Setup(), p.dump0, p.network0, p.history);
    DaemonCompletes(p.Setup(), p.dump0, p.network0, p.history);
    DaemonIsRun(p.Setup(), p.dump0, p.network0, p.history);
    RunSound(p.tk.cfg, p.ops.cfg, p.dump0 && !p.handedOver, p.ops.network, p.met);
  }
}
