/** What a completed takeover has done with the machine: everything it planned, or it still holds it back. */
module Completion {
  import opened Errno
  import opened Options
  import opened Effects
  import opened Machines
  import opened Operations
  import opened Daemons

  /**
   * All CPUs of the plan joined this kernel, and all its memory did too, or, with a dump to
   * write, is still held back whole, because the dump or the hot-add failed. Memory that
   * joined after a dump is on the dump.
   */
  ghost predicate Completed(o: OpsState) {
    && o.plan.Some?
    && var p := o.plan.value;
       && PlanMade(p) in o.trace
       && Offer(p.cpus, if o.dump then [] else p.adoptable, 0) in o.trace
       && (o.dump && p.adoptable != [] && o.preserved == [] ==>
             Dump(p.memory, 0) in o.trace && Offer([], p.adoptable, 0) in o.trace)
       && (o.dump && o.preserved != [] ==> o.preserved == p.adoptable && exists r :: Dump(p.memory, r) in o.trace)
  }

  lemma LogKeeps(o: OpsState, e: Effect, f: Effect)
    ensures e in o.Log([e]).trace && (f in o.trace ==> f in o.Log([e]).trace)
  {
  }

  lemma AdoptedIs(o: OpsState, cfg: OpsConfig, w: World)
    requires Plausible(cfg, w) && AfterAdopt(o, cfg, w).1 == 0
    ensures var n := AfterAdopt(o, cfg, w).0;
            && n.dump == o.dump && n.plan.Some? && PlanMade(n.plan.value) in n.trace
            && Offer(n.plan.value.cpus, if n.dump then [] else n.plan.value.adoptable, 0) in n.trace
            && (n.dump ==> n.preserved == n.plan.value.adoptable)
  {
    hide DevicesTaken;
    var d := DevicesTaken(o, cfg, w.devices);
    if w.plan.Made? {
      var p := w.plan.plan;
      var n := Replanned(d, w.plan);
      LogKeeps(d.(plan := Some(p)), PlanMade(p), PlanMade(p));
      LogKeeps(n, Offer(p.cpus, p.adoptable, w.offer), PlanMade(p));
      LogKeeps(n.(preserved := p.adoptable), Offer(p.cpus, [], w.offer), PlanMade(p));
      DumpKept(o, cfg, w);
    }
  }

  lemma DumpKept(o: OpsState, cfg: OpsConfig, w: World)
    ensures DevicesTaken(o, cfg, w.devices).dump == o.dump
  {
  }

  /** An adoption that succeeds, with whatever follows it, completes the takeover. */
  lemma ContinuedCompletes(o: OpsState, cfg: OpsConfig, w: World)
    requires Plausible(cfg, w) && AfterAdopt(o, cfg, w).1 == 0
    ensures var (o1, r1) := AfterAdopt(o, cfg, w);
            var (o2, r2) := AfterPreserve(o1, w);
            Completed(if r2 != 0 then o2 else AfterReap(o2, w).0)
  {
    hide AfterAdopt;
    AdoptedIs(o, cfg, w);
    var o1 := AfterAdopt(o, cfg, w).0;
    var (o2, r2) := AfterPreserve(o1, w);
    var p := o1.plan.value;
    var offer, dumped := Offer(p.cpus, if o1.dump then [] else p.adoptable, 0), Dump(p.memory, w.dump);
    LogKeeps(o1, dumped, PlanMade(p));
    LogKeeps(o1, dumped, offer);
    var again := Offer([], o2.preserved, w.reap);
    LogKeeps(o2, again, PlanMade(p));
    LogKeeps(o2, again, offer);
    LogKeeps(o2, again, dumped);
  }

  ghost predicate CompletedIfOver(s: System) {
    s.machine.state == TakenOver ==> Completed(s.ops)
  }

  lemma AdvanceCompletes(s: System, tk: Config, cfg: OpsConfig, ev: Event, w: World)
    requires s.machine.state != Fencing && CompletedIfOver(s) && Plausible(cfg, w)
    ensures CompletedIfOver(Advance(s, tk, cfg, ev, w))
  {
    hide Advance, AnswersOf, Completed, ContinuedCalls, AfterCalls, AfterAdopt, AfterPreserve, AfterReap, Plausible;
    AdvanceCases(s, tk, cfg, ev, w);
    var a, n := AnswersOf(s.ops, cfg, w), Advance(s, tk, cfg, ev, w);
    if Began(s, n, cfg, w, a) {
      BeginInOrder(s.ops, cfg, w);
      var f := s.ops.Log([FenceCall(w.fence)]);
      ContinueInOrder(f, cfg, w);
      if a.fence == 0 && a.adopt == 0 { ContinuedCompletes(f, cfg, w); }
    } else if WentOn(s, n, cfg, w, a) {
      ContinueInOrder(s.ops, cfg, w);
      if a.adopt == 0 { ContinuedCompletes(s.ops, cfg, w); }
    }
  }

  lemma DeliverCompletes(d: Daemon, g: Settings, err: int, w: World)
    requires d.sys.machine.state != Fencing && CompletedIfOver(d.sys) && Plausible(g.ops, w)
    ensures CompletedIfOver(Deliver(d, g, err, w).sys)
  {
    hide Advance, CompletedIfOver, Classify, AnswersOf, Plausible;
    AdvanceCompletes(d.sys, g.tk, g.ops, ProbeAlive, w);
    AdvanceCompletes(d.sys, g.tk, g.ops, ProbeSilent, w);
  }

  lemma TracedIsNotFencing(d: Daemon, g: Settings)
    requires Traced(d, g)
    ensures d.sys.machine.state != Fencing && Traced(d.(pending := false), g)
  {
    NotResting(d.sys, g.ops);
  }

  lemma TickCompletes(d: Daemon, g: Settings, e: Wakeup)
    requires Traced(d, g) && e.Tick? && Plausible(g.ops, e.w) && Plausible(g.ops, e.w2) && CompletedIfOver(d.sys)
    ensures CompletedIfOver(OnTick(d, g, e).sys)
  {
    hide Deliver, CompletedIfOver, Traced, Plausible;
    TracedIsNotFencing(d, g);
    var c := d.(pending := false);
    DeliverTraced(c, g, ETIMEDOUT, e.w);
    DeliverCompletes(c, g, ETIMEDOUT, e.w);
    var n := if d.pending then Deliver(c, g, ETIMEDOUT, e.w) else d;
    TracedIsNotFencing(n, g);
    if e.launch != Launched { DeliverCompletes(n, g, if e.launch.Refused? then e.launch.err else EIO, e.w2); }
  }

  lemma WakeCompletes(d: Daemon, g: Settings, e: Wakeup)
    requires Traced(d, g) && PlausibleWakeup(g, e) && CompletedIfOver(d.sys)
    ensures CompletedIfOver(Wake(d, g, e).sys)
  {
    hide Deliver, Traced, Plausible, OnTick, Advance, AnswersOf, Completed;
    TracedIsNotFencing(d, g);
    match e {
      case Tick(_, _, _, _) => TickCompletes(d, g, e);
      case Ready(err, w) => DeliverCompletes(d.(pending := false), g, err, w);
      case HandoverRequest(w) =>
        if d.sys.machine.state == Armed {
          AdvanceCompletes(d.sys.(ops := d.sys.ops.(dump := false)), g.tk, g.ops, Request, w);
        }
      case NetworkRequest(_) =>
      case Other =>
    }
  }

  /** Every daemon run that has taken over has completed what it planned. */
  lemma {:induction false} DaemonCompletes(g: Settings, dump: bool, network: bool, events: seq<Wakeup>)
    requires PlausibleRun(g, events)
    ensures CompletedIfOver(DaemonRun(g, dump, network, events).sys)
    decreases |events|
  {
    hide Wake, Traced, PlausibleWakeup, Completed;
    if events != [] {
      var before := events[..|events| - 1];
      RunKeeps(g, dump, network, before);
      DaemonCompletes(g, dump, network, before);
      WakeCompletes(DaemonRun(g, dump, network, before), g, events[|events| - 1]);
    }
  }
}
