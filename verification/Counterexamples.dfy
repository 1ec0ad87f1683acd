/** Runs of the daemon in which something the documentation promises does not happen. */
module Counterexamples {
  import opened Errno
  import opened Options
  import opened Rounding
  import opened Ranges
  import opened Records
  import opened Plans
  import opened Effects
  import opened Devices
  import opened Machines
  import opened Operations
  import opened Daemons
  import opened Retries
  import opened Passes

  const RAM: seq<Range> := [Range(0, 0x4000)]
  const FOUND: Range := Range(0x2000, 0x2000)

  /** Four granules of memory and one CPU, of which the next pool takes two. */
  function Setup(tk: Config, foreign: seq<DeviceId>): Settings {
    Settings(tk, OpsConfig(DeviceConfig(foreign, [], false), RAM, [7], [], [], 0x1000, true, None))
  }

  function Planning(written: Written): Plan {
    Plan(RAM, [], [], 0x1000, RAM, [7], if written.Whole? then [Range(0, 0x2000)] else RAM, Attempt(FOUND, written))
  }

  /** The fence holds and the device list is not granted; planning ends with `written`, the offer with `offer`. */
  function Answering(written: Written, offer: int): World {
    World(0, NoDevices, Made(Planning(written)), 0, [], offer, 0, 0)
  }

  lemma WholeGranules()
    ensures IsTakeable(RAM, RAM, [], []) && Aligned(RAM, RAM, 0x1000)
  {
    forall a ensures Covers(RAM, a) <==> Rounded(RAM, 0x1000, a) {
      if Covers(RAM, a) { assert InRounded(RAM[0], 0x1000, a); }
      if Rounded(RAM, 0x1000, a) { assert RAM[0].Has(a); }
    }
  }

  lemma OneCpu()
    ensures IsCpuDifference([7], [7], [])
  {
  }

  lemma KeptHalf()
    ensures Want(0x1000, 0x1000) == 0x2000 && IsTop(FOUND, RAM, 0x2000)
    ensures IsKept(FOUND, [Range(0, 0x2000)], RAM, 0x2000)
  {
    var rest := [Range(0, 0x2000)];
    assert Largest(RAM, RAM[0]);
    forall a ensures Covers(rest, a) <==> Covers(RAM, a) && !(0x2000 <= a < 0x4000) {
      CoversSingle(rest[0], a);
      CoversSingle(RAM[0], a);
    }
  }

  /** The code can plan so on this machine. */
  lemma PlanningPlausible(written: Written, offer: int, tk: Config, foreign: seq<DeviceId>)
    requires written in {Unopened, Whole}
    ensures Plausible(Setup(tk, foreign).ops, Answering(written, offer))
  {
    hide Covers, IsKept, IsTop, Aligned, IsTakeable, IsCpuDifference;
    WholeGranules();
    OneCpu();
    KeptHalf();
    assert CarvedFrom(Planning(written), RAM, 0x1000);
  }

  // ---------------------------------------------------------------- failures that are not retried

  /** A probe is started, and fails as one to a dead machine does. */
  function Silence(w: World): seq<Wakeup> {
    [Tick(true, Launched, w, w), Ready(EHOSTDOWN, w)]
  }

  lemma AfterSilence(g: Settings, dump: bool, network: bool, w: World)
    requires g.tk.probeTimeouts <= 1
    ensures var d, a := DaemonRun(g, dump, network, Silence(w)), AnswersOf(Fresh(dump, network), g.ops, w);
            && !d.pending && d.sys.machine == Begun(Initial.(silent := 1), a)
            && d.sys.ops == AfterCalls(Fresh(dump, network), g.ops, w,
                 [Fence(a.fence)] + if a.fence == 0 then ContinuedCalls(a) else [])
  {
    hide AnswersOf, ContinuedCalls, AfterCalls, Begun;
    var first := Silence(w)[..1];
    assert first == [Silence(w)[0]] && first[..0] == [];
    var s, a := System(Initial, Fresh(dump, network)), AnswersOf(Fresh(dump, network), g.ops, w);
    BegunMakes(Initial.(silent := 1), a);
    Suffix([], [Fence(a.fence)] + if a.fence == 0 then ContinuedCalls(a) else []);
    assert DaemonRun(g, dump, network, first) == Start(dump, network).(pending := true);
  }

  /** Nothing that comes later changes how such a run ended. */
  lemma AndNothingAfter(g: Settings, dump: bool, network: bool, w: World, more: seq<Wakeup>)
    requires g.tk.probeTimeouts <= 1
    ensures DaemonRun(g, dump, network, Silence(w) + more) == DaemonRun(g, dump, network, Silence(w))
  {
    hide DaemonRun, AnswersOf, AfterCalls, ContinuedCalls;
    var a := AnswersOf(Fresh(dump, network), g.ops, w);
    AfterSilence(g, dump, network, w);
    BegunForward(Initial.(silent := 1), a);
    ContinueRun(g, dump, network, Silence(w), more);
    StuckForever(DaemonRun(g, dump, network, Silence(w)), g, more);
  }

  /** A fence that fails is never tried again, although retries are left. */
  lemma FenceNotRetried(g: Settings, dump: bool, network: bool, more: seq<Wakeup>)
    requires g.tk.probeTimeouts <= 1 <= g.tk.fenceRetries
    ensures var d := DaemonRun(g, dump, network, Silence(Refusing(-1)) + more);
            && PlausibleRun(g, Silence(Refusing(-1)))
            && d.sys.machine.state == FenceFailed && d.sys.machine.attempts <= g.tk.fenceRetries
            && d.sys.machine.calls == [Fence(-1)]
  {
    hide DaemonRun, AfterCalls, AfterAdopt;
    AndNothingAfter(g, dump, network, Refusing(-1), more);
    AfterSilence(g, dump, network, Refusing(-1));
  }

  /** An adoption that fails is never tried again. */
  lemma AdoptNotRetried(g: Settings, dump: bool, network: bool, more: seq<Wakeup>)
    requires g.tk.probeTimeouts <= 1
    ensures var d := DaemonRun(g, dump, network, Silence(Refusing(0)) + more);
            && PlausibleRun(g, Silence(Refusing(0)))
            && d.sys.machine.state == Fenced && d.sys.machine.calls == [Fence(0), Adopt(-1)]
  {
    hide DaemonRun, AfterCalls, DevicesTaken;
    AndNothingAfter(g, dump, network, Refusing(0), more);
    AfterSilence(g, dump, network, Refusing(0));
  }

  /** A takeover that completes without having tried any of the predecessor's devices. */
  lemma DevicesNotTried(tk: Config, foreign: seq<DeviceId>, network: bool, more: seq<Wakeup>)
    requires tk.probeTimeouts <= 1
    ensures var g, w := Setup(tk, foreign), Answering(Whole, 0);
            var d := DaemonRun(g, false, network, Silence(w) + more);
            && PlausibleRun(g, Silence(w)) && d.sys.machine.state == TakenOver && !Adopts(d.sys.ops.trace)
  {
    var g, w := Setup(tk, foreign), Answering(Whole, 0);
    hide DaemonRun, AfterCalls, Plausible, ContinuedCalls, Adopts;
    PlanningPlausible(Whole, 0, tk, foreign);
    AndNothingAfter(g, false, network, w, more);
    AfterSilence(g, false, network, w);
    var o := Fresh(false, network);
    BeginInOrder(o, g.ops, w);
    LogAdds(o, FenceCall(0));
    Nothing();
    ContinueAdds(o.Log([FenceCall(0)]), g.ops, w);
  }

  // ---------------------------------------------------------------- a recorded claim that is hot-added

  const REFUSED := Answering(Whole, -1)
  const UNOPENED := Answering(Unopened, 0)

  /** A probe times out while the next one starts, and that one is answered late. */
  const LATE_ANSWER: seq<Wakeup> :=
    [Tick(true, Launched, REFUSED, REFUSED), Tick(true, Launched, REFUSED, REFUSED), Ready(0, UNOPENED)]

  lemma AdoptionLeaves(o: OpsState, g: Settings, tk: Config, written: Written, offer: int)
    requires g == Setup(tk, []) && !o.dump && !o.network
    ensures var (n, ret) := AfterAdopt(o, g.ops, Answering(written, offer));
            && ret == offer && n.dump == o.dump && n.network == o.network && n.preserved == o.preserved
            && n.trace == o.trace + [PlanMade(Planning(written)), Offer([7], Planning(written).adoptable, offer)]
  {
    RefusedPass(g.ops.devices, NoDevices);
  }

  /** The first adoption records its claim; its offer is refused. */
  lemma FirstOffer(g: Settings, tk: Config) returns (d: Daemon)
    requires g == Setup(tk, []) && tk.probeTimeouts <= 1
    ensures d == DaemonRun(g, false, false, LATE_ANSWER[..2])
    ensures d.pending && d.sys.machine.state == Fenced
    ensures var o := d.sys.ops; !o.dump && !o.network && o.preserved == []
    ensures d.sys.ops.trace == [FenceCall(0), PlanMade(Planning(Whole)), Offer([7], Planning(Whole).adoptable, -1)]
  {
    hide AnswersOf, ContinuedCalls, AfterCalls, AfterAdopt, Begun, Planning;
    var o := Fresh(false, false);
    var f, a := o.Log([FenceCall(0)]), AnswersOf(o, g.ops, REFUSED);
    assert LATE_ANSWER[..1] == [LATE_ANSWER[0]] && LATE_ANSWER[..2][..1] == LATE_ANSWER[..1];
    assert DaemonRun(g, false, false, LATE_ANSWER[..1]) == Start(false, false).(pending := true) by {
      assert LATE_ANSWER[..1][..0] == [];
    }
    BegunMakes(Initial.(silent := 1), a);
    Suffix([], [Fence(a.fence)] + if a.fence == 0 then ContinuedCalls(a) else []);
    BeginInOrder(o, g.ops, REFUSED);
    ContinueInOrder(f, g.ops, REFUSED);
    AdoptionLeaves(f, g, tk, Whole, -1);
    d := DaemonRun(g, false, false, LATE_ANSWER[..2]);
  }

  /** The second records nothing and offers everything. */
  lemma SecondOffer(g: Settings, tk: Config)
    requires g == Setup(tk, []) && tk.probeTimeouts <= 1
    ensures DaemonRun(g, false, false, LATE_ANSWER).sys.ops.trace ==
            [FenceCall(0), PlanMade(Planning(Whole)), Offer([7], Planning(Whole).adoptable, -1)] +
            [PlanMade(Planning(Unopened)), Offer([7], Planning(Unopened).adoptable, 0)]
  {
    hide AnswersOf, ContinuedCalls, AfterCalls, AfterAdopt, Continued, Planning, Setup;
    var d := FirstOffer(g, tk);
    var a := AnswersOf(d.sys.ops, g.ops, UNOPENED);
    ContinuedMakes(d.sys.machine, a);
    Suffix(d.sys.machine.calls, ContinuedCalls(a));
    ContinueInOrder(d.sys.ops, g.ops, UNOPENED);
    AdoptionLeaves(d.sys.ops, g, tk, Unopened, 0);
  }

  /**
   * A recorded claim is hot-added. The first adoption records memory for the next pool but
   * its offer is refused; a late probe result makes the second, which cannot open the
   * record, claims nothing, and offers what the record still names.
   */
  lemma RecordedIsOffered(tk: Config)
    requires tk.probeTimeouts <= 1
    ensures var g := Setup(tk, []);
            var t := DaemonRun(g, false, false, LATE_ANSWER).sys.ops.trace;
            && PlausibleRun(g, LATE_ANSWER)
            && |t| == 5 && t[4] == Offer([7], RAM, 0)
            && Named(RecordAfter(g.ops.record, t[..4])) == Some(FOUND)
            && FOUND.Has(0x2000) && Covers(t[4].memory, 0x2000)
  {
    hide DaemonRun, Plausible, RecordAfter, AfterAttempt;
    var g := Setup(tk, []);
    SecondOffer(g, tk);
    PlanningPlausible(Whole, -1, tk, []);
    PlanningPlausible(Unopened, 0, tk, []);
    var t := DaemonRun(g, false, false, LATE_ANSWER).sys.ops.trace;
    assert t[..4] == [FenceCall(0), PlanMade(Planning(Whole)), Offer([7], Planning(Whole).adoptable, -1),
                      PlanMade(Planning(Unopened))];
    RecordOfTwo(t[..4]);
    assert RAM[0].Has(0x2000);
  }

  lemma RecordOfTwo(t: seq<Effect>)
    requires |t| == 4 && !IsPlanning(t[0]) && t[1] == PlanMade(Planning(Whole)) && !IsPlanning(t[2])
    requires t[3] == PlanMade(Planning(Unopened))
    ensures Named(RecordAfter(None, t)) == Some(FOUND)
  {
    hide ClaimText, ParseClaim, RecordAfter;
    assert t == [] + [t[0]] + [t[1]] + [t[2]] + [t[3]];
    assert RecordAfter(None, []) == None by { RecordNothing(); }
    RecordStep(None, [], t[0]);
    RecordStep(None, [] + [t[0]], t[1]);
    RecordStep(None, [] + [t[0]] + [t[1]], t[2]);
    RecordStep(None, [] + [t[0]] + [t[1]] + [t[2]], t[3]);
    ClaimRoundTrip(FOUND);
  }

  lemma RecordNothing()
    ensures RecordAfter(None, []) == None
  {
  }
}
