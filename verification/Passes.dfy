/** The one device pass of a takeover, over whole runs: it is never tried again. */
module Passes {
  import opened Options
  import opened Effects
  import opened Devices
  import opened Machines
  import opened Operations

  /** A device was bound, or at least tried. */
  predicate Adopts(t: seq<Effect>) {
    exists k :: 0 <= k < |t| && t[k].AdoptDevice?
  }

  lemma AdoptsConcat(s: seq<Effect>, t: seq<Effect>)
    ensures Adopts(s + t) <==> Adopts(s) || Adopts(t)
  {
    if Adopts(s) {
      var k :| 0 <= k < |s| && s[k].AdoptDevice?;
      assert (s + t)[k].AdoptDevice?;
    }
    if Adopts(t) {
      var k :| 0 <= k < |t| && t[k].AdoptDevice?;
      assert (s + t)[|s| + k].AdoptDevice?;
    }
  }

  /** A pass tries devices exactly when there are any and it got the memory for its list. */
  lemma PassAdopts(c: DeviceConfig, w: DeviceWorld)
    ensures Adopts(PassTrace(c, w)) <==> w.granted && c.foreign != []
  {
    hide PassTrace;
    if w.granted && c.foreign != [] {
      PassTriesAll(c, w, 0);
    } else if w.granted {
      NoDevicesNoAdopt(c, w);
    } else {
      assert PassTrace(c, w) == [] by { RefusedPass(c, w); }
    }
  }

  lemma RefusedPass(c: DeviceConfig, w: DeviceWorld)
    requires !w.granted
    ensures PassTrace(c, w) == []
  {
  }

  lemma NoDevicesNoAdopt(c: DeviceConfig, w: DeviceWorld)
    requires c.foreign == []
    ensures !Adopts(PassTrace(c, w))
  {
    hide FirstError, CountOf;
    assert Adopted(c.foreign, w, |c.foreign|) == [];
  }

  /** What one adoption attempt adds. */
  lemma AdoptAdds(o: OpsState, cfg: OpsConfig, w: World)
    ensures var n := AfterAdopt(o, cfg, w).0;
            && n.devicesTried
            && (Adopts(n.trace) <==>
                Adopts(o.trace) || (!o.devicesTried && w.devices.granted && cfg.devices.foreign != []))
  {
    hide PassTrace, Adopts;
    PassAdopts(cfg.devices, w.devices);
    var pass := PassTrace(cfg.devices, w.devices);
    var d := DevicesTaken(o, cfg, w.devices);
    AdoptsConcat(pass, if o.network then [RestoreNetwork] else []);
    AdoptsConcat(o.trace, pass + if o.network then [RestoreNetwork] else []);
    NoAdopt(RestoreNetwork);
    assert !Adopts([]) by { Nothing(); }
    var n := Replanned(d, w.plan);
    if w.plan.Made? {
      var p := w.plan.plan;
      LogAdds(d, PlanMade(p));
      LogAdds(n, Offer(p.cpus, p.adoptable, w.offer));
      LogAdds(n, Offer(p.cpus, [], w.offer));
    } else {
      LogAdds(d, PlanFailed(w.plan.ret, w.plan.attempt));
    }
  }

  lemma Nothing()
    ensures !Adopts([])
  {
  }

  lemma NoAdopt(e: Effect)
    requires !e.AdoptDevice?
    ensures !Adopts([e])
  {
  }

  lemma LogAdds(o: OpsState, e: Effect)
    requires !e.AdoptDevice?
    ensures Adopts(o.Log([e]).trace) <==> Adopts(o.trace)
  {
    hide Adopts;
    AdoptsConcat(o.trace, [e]);
    NoAdopt(e);
  }

  /** Preserving and reaping touch no device. */
  lemma RestAdds(o: OpsState, w: World)
    ensures var n := AfterPreserve(o, w).0; n.devicesTried == o.devicesTried && (Adopts(n.trace) <==> Adopts(o.trace))
    ensures var n := AfterReap(o, w).0; n.devicesTried == o.devicesTried && (Adopts(n.trace) <==> Adopts(o.trace))
  {
    hide Adopts;
    if o.plan.Some? { LogAdds(o, Dump(o.plan.value.memory, w.dump)); }
    LogAdds(o, Offer([], o.preserved, w.reap));
  }

  lemma ContinueAdds(o: OpsState, cfg: OpsConfig, w: World)
    ensures var n := AfterCalls(o, cfg, w, ContinuedCalls(AnswersOf(o, cfg, w)));
            && n.devicesTried
            && (Adopts(n.trace) <==>
                Adopts(o.trace) || (!o.devicesTried && w.devices.granted && cfg.devices.foreign != []))
  {
    hide Adopts, AfterAdopt, AfterPreserve, AfterReap, AfterCalls, AnswersOf, ContinuedCalls;
    ContinueInOrder(o, cfg, w);
    AdoptAdds(o, cfg, w);
    var o1 := AfterAdopt(o, cfg, w).0;
    RestAdds(o1, w);
    RestAdds(AfterPreserve(o1, w).0, w);
  }

  /** An event tries devices only if it makes the first pass, and then exactly when that pass can. */
  lemma AdvanceAdds(s: System, tk: Config, cfg: OpsConfig, ev: Event, w: World)
    requires s.machine.state != Fencing
    ensures var n := Advance(s, tk, cfg, ev, w);
            && (s.ops.devicesTried ==> n.ops.devicesTried)
            && (Adopts(n.ops.trace) <==>
                || Adopts(s.ops.trace)
                || (!s.ops.devicesTried && n.ops.devicesTried && w.devices.granted && cfg.devices.foreign != []))
  {
    hide Adopts, Advance, AnswersOf, ContinuedCalls, AfterCalls;
    AdvanceCases(s, tk, cfg, ev, w);
    BeginInOrder(s.ops, cfg, w);
    var f := s.ops.Log([FenceCall(w.fence)]);
    LogAdds(s.ops, FenceCall(w.fence));
    ContinueAdds(f, cfg, w);
    ContinueAdds(s.ops, cfg, w);
  }

  /** What the kernel and the allocator answered during the one pass of a run, if it was tried. */
  function PassAnswers(tk: Config, cfg: OpsConfig, dump: bool, network: bool, inputs: seq<(Event, World)>)
    : Option<DeviceWorld>
  {
    if inputs == [] then None
    else
      var most := inputs[..|inputs| - 1];
      if !SystemRun(tk, cfg, dump, network, most).ops.devicesTried &&
         SystemRun(tk, cfg, dump, network, inputs).ops.devicesTried
      then Some(inputs[|inputs| - 1].1.devices)
      else PassAnswers(tk, cfg, dump, network, most)
  }

  /**
   * A takeover tries a device exactly when its one pass got the memory for its list and there
   * is one: a pass refused that memory is not made up for by any later event.
   */
  lemma {:induction false} DevicesIffGranted(tk: Config, cfg: OpsConfig, dump: bool, network: bool,
                                             inputs: seq<(Event, World)>)
    ensures var s, v := SystemRun(tk, cfg, dump, network, inputs), PassAnswers(tk, cfg, dump, network, inputs);
            && (s.ops.devicesTried <==> v.Some?)
            && (Adopts(s.ops.trace) <==> v.Some? && v.value.granted && cfg.devices.foreign != [])
    decreases |inputs|
  {
    hide Adopts, Advance;
    if inputs == [] {
      Nothing();
    } else {
      var most := inputs[..|inputs| - 1];
      var (ev, w) := inputs[|inputs| - 1];
      DevicesIffGranted(tk, cfg, dump, network, most);
      NeverFencing(tk, cfg, dump, network, most);
      AdvanceAdds(SystemRun(tk, cfg, dump, network, most), tk, cfg, ev, w);
    }
  }
}
