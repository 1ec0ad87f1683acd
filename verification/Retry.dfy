/**
 * Retries of a failed fence or a failed adoption: the machine makes one on every later probe
 * result, but the daemon starts no probe once it has left the watching states, so it
 * depends on the one that may still be pending.
 */
module Retries {
  import Errno
  import opened Plans
  import opened Machines
  import opened Operations
  import opened Daemons

  /** The daemon after more wakeups. */
  function DaemonFrom(d: Daemon, g: Settings, events: seq<Wakeup>): Daemon {
    if events == [] then d else Wake(DaemonFrom(d, g, events[..|events| - 1]), g, events[|events| - 1])
  }

  lemma {:induction false} ContinueRun(g: Settings, dump: bool, network: bool, before: seq<Wakeup>, events: seq<Wakeup>)
    ensures DaemonRun(g, dump, network, before + events) == DaemonFrom(DaemonRun(g, dump, network, before), g, events)
    decreases |events|
  {
    if events == [] {
      assert before + events == before;
    } else {
      var most := events[..|events| - 1];
      ContinueRun(g, dump, network, before, most);
      assert before + events == (before + most) + [events[|events| - 1]];
      assert (before + events)[..|before + events| - 1] == before + most;
    }
  }

  /**
   * Once watching is over and no probe is pending nothing ever happens again: a takeover that
   * has not completed is neither retried nor completed.
   */
  lemma {:induction false} StuckForever(d: Daemon, g: Settings, events: seq<Wakeup>)
    requires !Watching(d.sys.machine) && !d.pending
    ensures DaemonFrom(d, g, events) == d
    decreases |events|
  {
    if events != [] {
      StuckForever(d, g, events[..|events| - 1]);
      StuckOnce(d, g, events[|events| - 1]);
    }
  }

  lemma StuckOnce(d: Daemon, g: Settings, e: Wakeup)
    requires !Watching(d.sys.machine) && !d.pending
    ensures Wake(d, g, e) == d
  {
  }

  /** The calls made since `n` of them had been made. */
  function Since(d: Daemon, n: nat): seq<Call> {
    if n <= |d.sys.machine.calls| then d.sys.machine.calls[n..] else []
  }

  ghost predicate FencesAgain(d: Daemon, g: Settings, events: seq<Wakeup>) {
    exists k :: 0 <= k < |Since(DaemonFrom(d, g, events), |d.sys.machine.calls|)| &&
                Since(DaemonFrom(d, g, events), |d.sys.machine.calls|)[k].Fence?
  }

  ghost predicate AdoptsAgain(d: Daemon, g: Settings, events: seq<Wakeup>) {
    exists k :: 0 <= k < |Since(DaemonFrom(d, g, events), |d.sys.machine.calls|)| &&
                Since(DaemonFrom(d, g, events), |d.sys.machine.calls|)[k].Adopt?
  }

  /** A fence that used up its retries is not repeated. */
  ghost predicate Spent(d: Daemon, g: Settings) {
    d.sys.machine.state == FenceFailed && d.sys.machine.attempts > g.tk.fenceRetries
  }

  lemma SpentOnce(d: Daemon, g: Settings, e: Wakeup)
    requires Spent(d, g)
    ensures Wake(d, g, e).sys == d.sys
  {
    hide AnswersOf;
    match e {
      case Ready(err, w) => SpentAdvance(d.sys, g, ProbeAlive, w); SpentAdvance(d.sys, g, ProbeSilent, w);
      case _ =>
    }
  }

  lemma SpentAdvance(s: System, g: Settings, ev: Event, w: World)
    requires s.machine.state == FenceFailed && s.machine.attempts > g.tk.fenceRetries
    ensures Advance(s, g.tk, g.ops, ev, w) == s
  {
    NoCalls(s.ops, g.ops, w);
  }

  lemma {:induction false} SpentForever(d: Daemon, g: Settings, events: seq<Wakeup>)
    requires Spent(d, g)
    ensures DaemonFrom(d, g, events).sys == d.sys
    decreases |events|
  {
    hide Wake;
    if events != [] {
      SpentForever(d, g, events[..|events| - 1]);
      SpentOnce(DaemonFrom(d, g, events[..|events| - 1]), g, events[|events| - 1]);
    }
  }

  /** A world in which the fence fails, or succeeds and then nothing can be planned. */
  function Refusing(fence: int): World {
    World(fence, NoDevices, NoPlan(-1, NoAttempt), 0, [], 0, 0, 0)
  }

  lemma OneEvent(d: Daemon, g: Settings, e: Wakeup)
    ensures DaemonFrom(d, g, [e]) == Wake(d, g, e)
  {
    hide Wake;
    assert [e][..0] == [];
  }

  /** A late probe result that fences again. */
  lemma FenceOnSilence(d: Daemon, g: Settings)
    requires d.sys.machine.state == FenceFailed && d.pending && d.sys.machine.attempts <= g.tk.fenceRetries
    ensures var n := Wake(d, g, Ready(Errno.ETIMEDOUT, Refusing(-1)));
            n.sys.machine.calls == d.sys.machine.calls + [Fence(-1)]
  {
  }

  /** A late probe result that adopts again. */
  lemma AdoptOnLife(d: Daemon, g: Settings)
    requires d.sys.machine.state == Fenced && d.pending
    ensures var n := Wake(d, g, Ready(0, Refusing(0)));
            n.sys.machine.calls == d.sys.machine.calls + [Adopt(-1)]
  {
    hide DevicesTaken, AfterPreserve, AfterReap, AfterCalls;
    var a := AnswersOf(d.sys.ops, g.ops, Refusing(0));
    assert a.adopt == -1;
  }

  /**
   * When a failed fence is retried: some continuation fences again exactly when a probe is
   * still pending and the retries are not used up.
   */
  lemma FenceRetryIff(d: Daemon, g: Settings)
    requires d.sys.machine.state == FenceFailed
    ensures (exists events :: PlausibleRun(g, events) && FencesAgain(d, g, events)) <==>
            d.pending && d.sys.machine.attempts <= g.tk.fenceRetries
  {
    hide Wake, PlausibleRun, DaemonFrom;
    if d.pending && d.sys.machine.attempts <= g.tk.fenceRetries {
      var e := Ready(Errno.ETIMEDOUT, Refusing(-1));
      FenceOnSilence(d, g);
      OneEvent(d, g, e);
      RefusingPlausible(g, e);
      assert Since(DaemonFrom(d, g, [e]), |d.sys.machine.calls|)[0] == Fence(-1);
      assert FencesAgain(d, g, [e]);
    } else {
      forall events ensures !FencesAgain(d, g, events) {
        if d.pending { SpentForever(d, g, events); } else { StuckForever(d, g, events); }
      }
    }
  }

  /** When a failed adoption is retried: exactly when a probe is still pending. */
  lemma AdoptRetryIff(d: Daemon, g: Settings)
    requires d.sys.machine.state == Fenced
    ensures (exists events :: PlausibleRun(g, events) && AdoptsAgain(d, g, events)) <==> d.pending
  {
    hide Wake, PlausibleRun, DaemonFrom;
    if d.pending {
      var e := Ready(0, Refusing(0));
      AdoptOnLife(d, g);
      OneEvent(d, g, e);
      RefusingPlausible(g, e);
      assert Since(DaemonFrom(d, g, [e]), |d.sys.machine.calls|)[0] == Adopt(-1);
      assert AdoptsAgain(d, g, [e]);
    } else {
      forall events ensures !AdoptsAgain(d, g, events) { StuckForever(d, g, events); }
    }
  }

  lemma RefusingPlausible(g: Settings, e: Wakeup)
    requires e.Ready? && exists fence :: e.w == Refusing(fence)
    ensures PlausibleRun(g, [e])
  {
  }
}
