/** kmorphd's event loop (kmorphd/main.c, lib/probe.c): what every run of the daemon does. */
module Daemons {
  import opened Errno
  import opened Machines
  import opened Operations
  import opened Safety

  datatype ProbeResult = Alive | Silent | Error

  /** `probe_classify`: only a timeout is evidence of death; a local failure says nothing. */
  function Classify(err: int): ProbeResult {
    if err == 0 || err == ECONNRESET then Alive
    else if err == ETIMEDOUT || err == EHOSTDOWN then Silent
    else Error
  }

  /** What the daemon has seen of the predecessor. */
  datatype Sighting = Probed(result: ProbeResult) | HandedOver

  /**
   * `struct daemon`, with the history of the run: what was seen, what the machine was fed
   * and which answers it met, and how many probe results arrived after the watching states
   * were left.
   */
  datatype Daemon = Daemon(
    sys: System, lastResult: ProbeResult, pending: bool, handedOver: bool,
    seen: seq<Sighting>, fed: seq<Input>, met: seq<(Event, World)>, late: nat)

  datatype Settings = Settings(tk: Config, ops: OpsConfig)

  function Start(dump: bool, network: bool): Daemon {
    Daemon(System(Initial, Fresh(dump, network)), Error, false, false, [], [], [], 0)
  }

  /** The machine handles `ev`, with the operations answering from `w`. */
  function Feed(d: Daemon, g: Settings, ev: Event, w: World): Daemon {
    d.(sys := Advance(d.sys, g.tk, g.ops, ev, w),
       fed := d.fed + [Input(ev, AnswersOf(d.sys.ops, g.ops, w))], met := d.met + [(ev, w)])
  }

  /** `deliver_probe`. */
  function Deliver(d: Daemon, g: Settings, err: int, w: World): Daemon {
    var r := Classify(err);
    var n := d.(lastResult := r, seen := d.seen + [Probed(r)],
                late := d.late + if Watching(d.sys.machine) then 0 else 1);
    match r
    case Alive => Feed(n, g, ProbeAlive, w)
    case Silent => Feed(n, g, ProbeSilent, w)
    case Error => n
  }

  /** How starting a probe turns out. */
  datatype Launch = Launched | Refused(err: int) | NotPolled

  /** What wakes the event loop. A tick may deliver two results, so it carries two worlds. */
  datatype Wakeup =
    | Tick(readable: bool, launch: Launch, w: World, w2: World)
    | Ready(err: int, w: World)
    | HandoverRequest(w: World)
    | NetworkRequest(wellFormed: bool)
    | Other

  /** `on_tick`: a probe still pending has timed out; then a new one is started. */
  function OnTick(d: Daemon, g: Settings, e: Wakeup): Daemon
    requires e.Tick?
  {
    if !e.readable || !Watching(d.sys.machine) then d
    else
      var n := if d.pending then Deliver(d.(pending := false), g, ETIMEDOUT, e.w) else d;
      match e.launch
      case Launched => n.(pending := true)
      case Refused(err) => Deliver(n, g, err, e.w2)
      case NotPolled => Deliver(n, g, EIO, e.w2)
  }

  /** `answer_handover` and `take_handover`: only a live predecessor that is not suspected may hand over. */
  function OnHandover(d: Daemon, g: Settings, w: World): Daemon {
    if d.sys.machine.state == Armed && d.lastResult == Alive then
      Feed(d.(handedOver := true, seen := d.seen + [HandedOver], sys := d.sys.(ops := d.sys.ops.(dump := false))),
           g, Request, w)
    else d
  }

  function Wake(d: Daemon, g: Settings, e: Wakeup): Daemon {
    match e
    case Tick(_, _, _, _) => OnTick(d, g, e)
    case Ready(err, w) => if d.pending then Deliver(d.(pending := false), g, err, w) else d
    case HandoverRequest(w) => OnHandover(d, g, w)
    case NetworkRequest(wellFormed) =>
      if Watching(d.sys.machine) && wellFormed then d.(sys := d.sys.(ops := d.sys.ops.(network := true))) else d
    case Other => d
  }

  ghost predicate PlausibleWakeup(g: Settings, e: Wakeup) {
    match e
    case Tick(_, _, w, w2) => Plausible(g.ops, w) && Plausible(g.ops, w2)
    case Ready(_, w) => Plausible(g.ops, w)
    case HandoverRequest(w) => Plausible(g.ops, w)
    case NetworkRequest(_) => true
    case Other => true
  }

  ghost predicate PlausibleRun(g: Settings, events: seq<Wakeup>) {
    forall k :: 0 <= k < |events| ==> PlausibleWakeup(g, events[k])
  }

  function DaemonRun(g: Settings, dump: bool, network: bool, events: seq<Wakeup>): Daemon {
    if events == [] then Start(dump, network)
    else Wake(DaemonRun(g, dump, network, events[..|events| - 1]), g, events[|events| - 1])
  }

  // ---------------------------------------------------------------- evidence

  /** Silent probes since the last alive one; local errors and handovers neither count nor reset. */
  function SilentRun(seen: seq<Sighting>): nat {
    if seen == [] then 0
    else
      match seen[|seen| - 1]
      case Probed(Alive) => 0
      case Probed(Silent) => SilentRun(seen[..|seen| - 1]) + 1
      case _ => SilentRun(seen[..|seen| - 1])
  }

  /** The last probe result, an error before there is any. */
  function LastProbe(seen: seq<Sighting>): ProbeResult {
    if seen == [] then Error
    else
      match seen[|seen| - 1]
      case Probed(r) => r
      case HandedOver => LastProbe(seen[..|seen| - 1])
  }

  /** The last sighting justifies a fence: enough silence, or a handover by a predecessor last seen alive. */
  predicate Justifies(g: Settings, seen: seq<Sighting>)
    requires seen != []
  {
    match seen[|seen| - 1]
    case Probed(Silent) => SilentRun(seen) >= g.tk.probeTimeouts
    case Probed(_) => false
    case HandedOver => LastProbe(seen) == Alive && SilentRun(seen) == 0
  }

  ghost predicate Justified(g: Settings, seen: seq<Sighting>) {
    exists k :: 0 < k <= |seen| && Justifies(g, seen[..k])
  }

  // ---------------------------------------------------------------- what every wakeup keeps

  /** The daemon's machine and operations stand where the events fed to them lead. */
  ghost predicate Replayed(s: System, met: seq<(Event, World)>, g: Settings) {
    PlausibleInputs(g.ops, met) && s == SystemRun(g.tk, g.ops, s.ops.dump, s.ops.network, met)
  }

  /** Facts about the machine and what it was fed. */
  ghost predicate Traced(d: Daemon, g: Settings) {
    && d.sys.machine == Run(g.tk, d.fed)
    && Replayed(d.sys, d.met, g)
    && Sound(d.sys, g.ops)
    && SilentSinceAlive(d.fed) == SilentRun(d.seen)
    && d.lastResult == LastProbe(d.seen)
    && (Watching(d.sys.machine) <==> !Justified(g, d.seen))
  }

  /** Facts about handover, dumps and late results. */
  ghost predicate Settled(d: Daemon) {
    && (d.handedOver ==> !d.sys.ops.dump && !Watching(d.sys.machine))
    && (if Watching(d.sys.machine) then d.late == 0 else d.late + (if d.pending then 1 else 0) <= 1)
    && Fences(d.sys.machine.calls) <= if Watching(d.sys.machine) then 0 else 1 + d.late
  }

  lemma RunAppend(tk: Config, fed: seq<Input>, i: Input)
    ensures Run(tk, fed + [i]) == Handled(Run(tk, fed), tk, i.event, i.answers)
  {
    assert (fed + [i])[..|fed|] == fed;
  }

  lemma SilentAppend(fed: seq<Input>, i: Input)
    ensures SilentSinceAlive(fed + [i]) ==
            match i.event
            case ProbeAlive => 0
            case ProbeSilent => SilentSinceAlive(fed) + 1
            case Request => SilentSinceAlive(fed)
  {
    assert (fed + [i])[..|fed|] == fed;
  }

  lemma SeenAppend(g: Settings, seen: seq<Sighting>, s: Sighting)
    ensures SilentRun(seen + [s]) ==
            match s
            case Probed(Alive) => 0
            case Probed(Silent) => SilentRun(seen) + 1
            case _ => SilentRun(seen)
    ensures LastProbe(seen + [s]) == match s case Probed(r) => r case HandedOver => LastProbe(seen)
    ensures Justified(g, seen + [s]) <==> Justified(g, seen) || Justifies(g, seen + [s])
  {
    var t := seen + [s];
    assert t[..|seen|] == seen && t[..|seen| + 1] == t;
    forall k | 0 < k <= |seen| ensures t[..k] == seen[..k] {}
    if Justified(g, seen) {
      var k :| 0 < k <= |seen| && Justifies(g, seen[..k]);
      assert Justifies(g, t[..k]);
    }
    if Justifies(g, t) { assert Justifies(g, t[..|seen| + 1]); }
  }

  /** A watching machine's state tells whether a silence is pending, and how many are left. */
  lemma WatchingKnows(d: Daemon, g: Settings)
    requires Traced(d, g) && Watching(d.sys.machine)
    ensures Attentive(d.sys.machine, g.tk, SilentRun(d.seen))
  {
    WatchesUntilTriggered(g.tk, d.fed);
  }

  /** One event makes at most one fence, and only if the machine is not past fencing. */
  lemma AdvanceFences(m: Machine, tk: Config, ev: Event, a: Answers)
    requires m.state != Fencing
    ensures Fences(Handled(m, tk, ev, a).calls) <= Fences(m.calls) + 1
    ensures Watching(Handled(m, tk, ev, a)) ==> Watching(m) && Handled(m, tk, ev, a).calls == m.calls
  {
    hide Begun, Continued, Fences;
    BegunFences(m, a);
    BegunFences(m.(silent := Next32(m.silent)), a);
    ContinuedFences(m, a);
  }

  /** The event a sighting feeds the machine. */
  predicate Matches(s: Sighting, ev: Event) {
    match s
    case Probed(Alive) => ev == ProbeAlive
    case Probed(Silent) => ev == ProbeSilent
    case Probed(Error) => false
    case HandedOver => ev == Request
  }

  lemma AdvanceReplayed(s: System, met: seq<(Event, World)>, g: Settings, ev: Event, w: World)
    requires Replayed(s, met, g) && Plausible(g.ops, w)
    ensures Replayed(Advance(s, g.tk, g.ops, ev, w), met + [(ev, w)], g)
  {
    hide Advance, Plausible;
    AdvanceConfig(s, g.tk, g.ops, ev, w);
    assert (met + [(ev, w)])[..|met|] == met;
  }

  /** While nothing but watching was done, changing what is configured changes nothing else. */
  lemma WatchingReplayed(s: System, met: seq<(Event, World)>, g: Settings, dump: bool, network: bool)
    requires Replayed(s, met, g) && Watching(s.machine)
    ensures Replayed(s.(ops := s.ops.(dump := dump, network := network)), met, g)
  {
    hide SystemRun, PlausibleInputs;
    WatchingRun(g.tk, g.ops, s.ops.dump, s.ops.network, met, dump, network);
  }

  lemma FeedTraced(d: Daemon, g: Settings, s: Sighting, ev: Event, w: World)
    requires Traced(d, g) && Plausible(g.ops, w) && Matches(s, ev)
    requires ev == Request ==> d.lastResult == Alive && d.sys.machine.state == Armed
    ensures var n := Feed(d, g, ev, w);
            Traced(n.(seen := d.seen + [s], lastResult := if s.Probed? then s.result else d.lastResult), g)
  {
    var i := Input(ev, AnswersOf(d.sys.ops, g.ops, w));
    RunAppend(g.tk, d.fed, i);
    SilentAppend(d.fed, i);
    SeenAppend(g, d.seen, s);
    AdvanceSound(d.sys, g.tk, g.ops, ev, w);
    AdvanceReplayed(d.sys, d.met, g, ev, w);
    FeedWatching(d, g, s, ev, i);
    hide Replayed, Sound, Justified, Run, AnswersOf, SilentRun, SilentSinceAlive, LastProbe, Justifies, AfterCalls,
      Handled;
  }

  lemma FeedWatching(d: Daemon, g: Settings, s: Sighting, ev: Event, i: Input)
    requires Traced(d, g) && Matches(s, ev) && i.event == ev
    requires ev == Request ==> d.lastResult == Alive && d.sys.machine.state == Armed
    ensures Watching(Handled(d.sys.machine, g.tk, ev, i.answers)) <==> !Justified(g, d.seen + [s])
  {
    var m := d.sys.machine;
    SeenAppend(g, d.seen, s);
    SilentAppend(d.fed, i);
    hide Replayed, Justified, Run, SilentRun, SilentSinceAlive, LastProbe, Handled;
    assert m.state != Fencing by { NotResting(d.sys, g.ops); }
    if Watching(m) {
      WatchingKnows(d, g);
      HandledWatching(m, g.tk, d.fed, i);
    } else {
      HandledForward(m, g.tk, ev, i.answers);
    }
  }

  lemma DeliverTraced(d: Daemon, g: Settings, err: int, w: World)
    requires Traced(d, g) && Plausible(g.ops, w)
    ensures Traced(Deliver(d, g, err, w), g)
  {
    var r := Classify(err);
    hide Replayed, Sound, Justified, Run, AnswersOf, SilentRun, SilentSinceAlive, LastProbe, Advance, Plausible,
      Classify;
    match r {
      case Alive => FeedTraced(d, g, Probed(Alive), ProbeAlive, w);
      case Silent => FeedTraced(d, g, Probed(Silent), ProbeSilent, w);
      case Error => SeenAppend(g, d.seen, Probed(Error)); assert !Justifies(g, d.seen + [Probed(Error)]);
    }
  }

  lemma FeedSettled(d: Daemon, g: Settings, ev: Event, w: World)
    requires Traced(d, g) && Plausible(g.ops, w)
    requires d.handedOver ==> !d.sys.ops.dump
    requires Fences(d.sys.machine.calls) <= if Watching(d.sys.machine) then 0 else d.late
    requires if Watching(d.sys.machine) then d.late == 0 else d.late + (if d.pending then 1 else 0) <= 1
    requires d.handedOver ==> !Watching(d.sys.machine) || (ev == Request && d.sys.machine.state == Armed)
    ensures Settled(Feed(d, g, ev, w))
  {
    var a := AnswersOf(d.sys.ops, g.ops, w);
    AdvanceSound(d.sys, g.tk, g.ops, ev, w);
    NotResting(d.sys, g.ops);
    AdvanceFences(d.sys.machine, g.tk, ev, a);
    if ev == Request && d.sys.machine.state == Armed { BegunForward(d.sys.machine, a); }
    hide Traced, Sound, Fences, AnswersOf, AfterCalls, Plausible, Begun, Continued;
  }

  lemma LateTraced(d: Daemon, g: Settings, late: nat)
    requires Traced(d, g)
    ensures Traced(d.(late := late), g)
  {
  }

  lemma DeliverSettled(d: Daemon, g: Settings, err: int, w: World)
    requires Traced(d, g) && Settled(d) && Plausible(g.ops, w) && !d.pending && (Watching(d.sys.machine) || d.late == 0)
    ensures var n := Deliver(d, g, err, w);
            Settled(n) && !n.pending && (Watching(d.sys.machine) ==> n.late == 0)
  {
    hide Traced, Fences, AnswersOf, Advance, Plausible, Classify;
    var r := Classify(err);
    var n := d.(late := d.late + if Watching(d.sys.machine) then 0 else 1);
    LateTraced(d, g, n.late);
    match r {
      case Alive => FeedSettled(n, g, ProbeAlive, w);
      case Silent => FeedSettled(n, g, ProbeSilent, w);
      case Error =>
    }
  }

  lemma PendingTraced(d: Daemon, g: Settings, pending: bool)
    requires Traced(d, g)
    ensures Traced(d.(pending := pending), g)
  {
  }

  lemma TickKeeps(d: Daemon, g: Settings, e: Wakeup)
    requires Traced(d, g) && Settled(d) && e.Tick? && Plausible(g.ops, e.w) && Plausible(g.ops, e.w2)
    ensures Traced(OnTick(d, g, e), g) && Settled(OnTick(d, g, e))
  {
    hide Traced, Fences, Deliver, Plausible;
    if e.readable && Watching(d.sys.machine) {
      var c := d.(pending := false);
      PendingTraced(d, g, false);
      var n := if d.pending then Deliver(c, g, ETIMEDOUT, e.w) else d;
      DeliverTraced(c, g, ETIMEDOUT, e.w);
      DeliverSettled(c, g, ETIMEDOUT, e.w);
      PendingTraced(n, g, true);
      assert n == n.(pending := false);
      if e.launch != Launched {
        var err := if e.launch.Refused? then e.launch.err else EIO;
        DeliverTraced(n, g, err, e.w2);
        DeliverSettled(n, g, err, e.w2);
      }
    }
  }

  lemma HandoverKeeps(d: Daemon, g: Settings, w: World)
    requires Traced(d, g) && Settled(d) && Plausible(g.ops, w)
    ensures Traced(OnHandover(d, g, w), g) && Settled(OnHandover(d, g, w))
  {
    if d.sys.machine.state == Armed && d.lastResult == Alive {
      var c := d.(handedOver := true, sys := d.sys.(ops := d.sys.ops.(dump := false)));
      WatchingReplayed(d.sys, d.met, g, false, d.sys.ops.network);
      assert Traced(c, g);
      hide Traced, Fences, Plausible, Advance, AnswersOf;
      FeedTraced(c, g, HandedOver, Request, w);
      FeedSettled(c, g, Request, w);
    }
  }

  lemma WakeKeeps(d: Daemon, g: Settings, e: Wakeup)
    requires Traced(d, g) && Settled(d) && PlausibleWakeup(g, e)
    ensures Traced(Wake(d, g, e), g) && Settled(Wake(d, g, e))
  {
    match e {
      case Tick(_, _, _, _) => TickKeeps(d, g, e);
      case Ready(err, w) =>
        if d.pending {
          var c := d.(pending := false);
          PendingTraced(d, g, false);
          hide Traced, Fences, Deliver, Plausible;
          DeliverTraced(c, g, err, w);
          DeliverSettled(c, g, err, w);
        }
      case HandoverRequest(w) => HandoverKeeps(d, g, w);
      case NetworkRequest(_) => if Watching(d.sys.machine) { WatchingReplayed(d.sys, d.met, g, d.sys.ops.dump, true); }
      case Other =>
    }
  }

  /** Feeding the machine changes neither what is configured nor whether the predecessor handed over. */
  lemma DeliverConfig(d: Daemon, g: Settings, err: int, w: World)
    ensures var n := Deliver(d, g, err, w); n.sys.ops.dump == d.sys.ops.dump && n.handedOver == d.handedOver
  {
    hide Advance, Classify, AnswersOf;
    AdvanceConfig(d.sys, g.tk, g.ops, ProbeAlive, w);
    AdvanceConfig(d.sys, g.tk, g.ops, ProbeSilent, w);
  }

  /** A dump is written only if configured and not handed over. */
  ghost predicate DumpAsConfigured(d: Daemon, dump: bool) {
    d.sys.ops.dump == (dump && !d.handedOver)
  }

  lemma WakeConfig(d: Daemon, g: Settings, e: Wakeup, dump: bool)
    requires DumpAsConfigured(d, dump)
    ensures DumpAsConfigured(Wake(d, g, e), dump)
  {
    hide Deliver, Advance, AnswersOf;
    match e {
      case Tick(readable, launch, w, w2) =>
        var c := d.(pending := false);
        DeliverConfig(c, g, ETIMEDOUT, w);
        var n := if d.pending then Deliver(c, g, ETIMEDOUT, w) else d;
        if launch != Launched { DeliverConfig(n, g, if launch.Refused? then launch.err else EIO, w2); }
      case Ready(err, w) => DeliverConfig(d.(pending := false), g, err, w);
      case HandoverRequest(w) =>
        AdvanceConfig(d.sys.(ops := d.sys.ops.(dump := false)), g.tk, g.ops, Request, w);
      case NetworkRequest(_) =>
      case Other =>
    }
  }

  lemma StartKeeps(g: Settings, dump: bool, network: bool)
    ensures Traced(Start(dump, network), g) && Settled(Start(dump, network))
  {
  }

  lemma {:induction false} RunKeeps(g: Settings, dump: bool, network: bool, events: seq<Wakeup>)
    requires PlausibleRun(g, events)
    ensures var d := DaemonRun(g, dump, network, events);
            Traced(d, g) && Settled(d) && DumpAsConfigured(d, dump)
    decreases |events|
  {
    hide Traced, Settled, Wake, PlausibleWakeup;
    if events == [] {
      StartKeeps(g, dump, network);
    } else {
      var before := events[..|events| - 1];
      var d := DaemonRun(g, dump, network, before);
      RunKeeps(g, dump, network, before);
      WakeKeeps(d, g, events[|events| - 1]);
      WakeConfig(d, g, events[|events| - 1], dump);
    }
  }

  // ---------------------------------------------------------------- what every run of the daemon obeys

  /**
   * Whole-run safety. For every sequence of wakeups and every answer of the kernel, memory
   * and CPUs are offered only after a successful fence and a finished device pass, only
   * outside the plan's pool claim and, with a dump to write, only after the plan's memory was
   * dumped; IOMMUs are claimed only with every foreign function taken and quiet. Unless
   * the rounding of that plan wrapped, the memory is host RAM, neither own nor reserved, and
   * all of it is on the dump.
   */
  lemma DaemonSafe(g: Settings, dump: bool, network: bool, events: seq<Wakeup>)
    requires PlausibleRun(g, events)
    ensures var d := DaemonRun(g, dump, network, events);
            SafeTrace(g.ops, dump && !d.handedOver, d.sys.ops.trace)
  {
    hide SafeTrace;
    RunKeeps(g, dump, network, events);
    SoundIsSafe(DaemonRun(g, dump, network, events).sys, g.ops);
  }

  /**
   * Evidence. The daemon leaves the watching states exactly when some sighting justified
   * it: `probe_timeouts` silences since the last sign of life, or a handover by a
   * predecessor last seen alive with no silence since. A last result of silence is never
   * met in ARMED, so a silent predecessor cannot hand over.
   */
  lemma DaemonEvidence(g: Settings, dump: bool, network: bool, events: seq<Wakeup>)
    requires PlausibleRun(g, events)
    ensures var d := DaemonRun(g, dump, network, events);
            && (Watching(d.sys.machine) <==> !Justified(g, d.seen))
            && (d.sys.machine.calls != [] ==> Justified(g, d.seen))
            && (d.lastResult == Silent ==> d.sys.machine.state != Armed)
  {
    var d := DaemonRun(g, dump, network, events);
    RunKeeps(g, dump, network, events);
    if Watching(d.sys.machine) {
      WatchingKnows(d, g);
      if d.lastResult == Silent { SilentMeansSome(d.seen); }
    }
  }

  lemma {:induction false} SilentMeansSome(seen: seq<Sighting>)
    requires LastProbe(seen) == Silent
    ensures SilentRun(seen) > 0
    decreases |seen|
  {
    if seen[|seen| - 1] == HandedOver { SilentMeansSome(seen[..|seen| - 1]); }
  }

  /** Every daemon run is a run of the machine and its operations, so what holds of all of those holds of it. */
  lemma DaemonIsRun(g: Settings, dump: bool, network: bool, events: seq<Wakeup>)
    requires PlausibleRun(g, events)
    ensures var d := DaemonRun(g, dump, network, events);
            && PlausibleInputs(g.ops, d.met)
            && d.sys == SystemRun(g.tk, g.ops, dump && !d.handedOver, d.sys.ops.network, d.met)
  {
    RunKeeps(g, dump, network, events);
  }

  /** Dump and handover exclude each other: a run that was handed over holds nothing back and writes no dump. */
  lemma HandoverNeverDumps(g: Settings, dump: bool, network: bool, events: seq<Wakeup>)
    requires PlausibleRun(g, events)
    requires DaemonRun(g, dump, network, events).handedOver
    ensures var d := DaemonRun(g, dump, network, events);
            d.sys.ops.preserved == [] && forall k :: 0 <= k < |d.sys.ops.trace| ==> !d.sys.ops.trace[k].Dump?
  {
    RunKeeps(g, dump, network, events);
    SoundIsSafe(DaemonRun(g, dump, network, events).sys, g.ops);
  }

  /**
   * The documented retries do not happen. Once the watching states are left no new probe is
   * started, so at most one more probe result arrives and at most two fences are ever
   * attempted, whatever `fence_retries` says.
   */
  lemma AtMostOneLateResult(g: Settings, dump: bool, network: bool, events: seq<Wakeup>)
    requires PlausibleRun(g, events)
    ensures var d := DaemonRun(g, dump, network, events);
            d.late <= 1 && Fences(d.sys.machine.calls) <= 2
  {
    RunKeeps(g, dump, network, events);
  }
}
