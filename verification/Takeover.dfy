/** The takeover state machine (kmorphd/takeover.c): what every run of it does. */
module Machines {
  import opened Bytes

  datatype State = Armed | Suspect | Fencing | FenceFailed | Fenced | TakenOver

  datatype Event = ProbeAlive | ProbeSilent | Request

  /** A call through the ops table and what it returned; 0 is success. */
  datatype Call = Fence(ret: int) | Adopt(ret: int) | Preserve(ret: int) | Reap(ret: int)

  datatype Config = Config(probeTimeouts: Word32, fenceRetries: Word32)

  /** What each operation returns if an event makes the machine call it. No event calls one twice. */
  datatype Answers = Answers(fence: int, adopt: int, preserve: int, reap: int)

  /** `struct takeover`, with the calls made and the states announced so far. */
  datatype Machine = Machine(
    state: State, silent: Word32, attempts: Word32, lastError: int, calls: seq<Call>, announced: seq<State>)
  {
    function Enter(s: State): Machine {
      this.(state := s, announced := announced + [s])
    }

    function Step(c: Call): Machine {
      this.(lastError := c.ret, calls := calls + [c])
    }
  }

  const Initial: Machine := Machine(Armed, 0, 0, 0, [], [])

  /** `x + 1` in 32 bits. */
  function Next32(x: Word32): Word32 {
    if x == 0xFFFF_FFFF then 0 else x + 1
  }

  function Continued(m: Machine, a: Answers): Machine {
    var adopted := m.Step(Adopt(a.adopt));
    if a.adopt != 0 then adopted
    else
      var preserved := adopted.Step(Preserve(a.preserve));
      var reaped := if a.preserve == 0 then preserved.Step(Reap(a.reap)) else preserved;
      reaped.Enter(TakenOver)
  }

  function Begun(m: Machine, a: Answers): Machine {
    var f := m.Enter(Fencing).(attempts := Next32(m.attempts)).Step(Fence(a.fence));
    if a.fence != 0 then f.Enter(FenceFailed) else Continued(f.Enter(Fenced), a)
  }

  function Watched(m: Machine, cfg: Config, ev: Event, a: Answers): Machine {
    match ev
    case ProbeAlive =>
      var n := m.(silent := 0);
      if n.state != Armed then n.Enter(Armed) else n
    case ProbeSilent =>
      var n := m.(silent := Next32(m.silent));
      if n.silent >= cfg.probeTimeouts then Begun(n, a)
      else if n.state != Suspect then n.Enter(Suspect) else n
    case Request =>
      if m.state == Armed then Begun(m, a) else m
  }

  /** `takeover_handle`. */
  function Handled(m: Machine, cfg: Config, ev: Event, a: Answers): Machine {
    match m.state
    case Armed => Watched(m, cfg, ev, a)
    case Suspect => Watched(m, cfg, ev, a)
    case FenceFailed => if ev != ProbeAlive && m.attempts <= cfg.fenceRetries then Begun(m, a) else m
    case Fenced => Continued(m, a)
    case Fencing => m
    case TakenOver => m
  }

  /** An event together with what the operations answer during it. */
  datatype Input = Input(event: Event, answers: Answers)

  function Run(cfg: Config, inputs: seq<Input>): Machine {
    if inputs == [] then Initial
    else
      var last := inputs[|inputs| - 1];
      Handled(Run(cfg, inputs[..|inputs| - 1]), cfg, last.event, last.answers)
  }

  // ---------------------------------------------------------------- the language of calls

  ghost predicate FailedFences(s: seq<Call>) {
    forall i :: 0 <= i < |s| ==> s[i].Fence? && s[i].ret != 0
  }

  ghost predicate FailedAdopts(s: seq<Call>) {
    forall i :: 0 <= i < |s| ==> s[i].Adopt? && s[i].ret != 0
  }

  /** One successful adoption, one preserve, and a reap exactly when the preserve succeeded. */
  ghost predicate Finish(s: seq<Call>) {
    && 2 <= |s| <= 3
    && s[0] == Adopt(0)
    && s[1].Preserve?
    && (|s| == 3 <==> s[1].ret == 0)
    && (|s| == 3 ==> s[2].Reap?)
  }

  /** The calls a machine in this state has made, in order. */
  ghost predicate Language(state: State, calls: seq<Call>) {
    match state
    case Armed => calls == []
    case Suspect => calls == []
    case Fencing => false
    case FenceFailed => calls != [] && FailedFences(calls)
    case Fenced => exists i :: FencedAt(calls, i) && i + 1 < |calls|
    case TakenOver => exists i, j :: FinishedAt(calls, i, j)
  }

  ghost predicate FencedAt(calls: seq<Call>, i: int) {
    0 <= i < |calls| && FailedFences(calls[..i]) && calls[i] == Fence(0) && FailedAdopts(calls[i + 1..])
  }

  ghost predicate FinishedAt(calls: seq<Call>, i: int, j: int) {
    0 <= i < j <= |calls| && FencedAt(calls[..j], i) && Finish(calls[j..])
  }

  lemma ContinuedLanguage(m: Machine, a: Answers, i: int)
    requires FencedAt(m.calls, i) && m.state == Fenced
    ensures Language(Continued(m, a).state, Continued(m, a).calls)
  {
    var n := Continued(m, a);
    if a.adopt != 0 {
      assert n.calls[i + 1..] == m.calls[i + 1..] + [Adopt(a.adopt)];
      assert n.calls[..i] == m.calls[..i];
      assert FencedAt(n.calls, i);
    } else {
      var j := |m.calls|;
      assert n.calls[..j] == m.calls;
      var tail := if a.preserve == 0 then [Adopt(0), Preserve(a.preserve), Reap(a.reap)]
                  else [Adopt(0), Preserve(a.preserve)];
      assert n.calls == m.calls + tail;
      assert n.calls[j..] == tail;
      assert FinishedAt(n.calls, i, j);
    }
  }

  lemma BegunLanguage(m: Machine, a: Answers)
    requires FailedFences(m.calls)
    ensures Language(Begun(m, a).state, Begun(m, a).calls)
  {
    var f := m.Enter(Fencing).(attempts := Next32(m.attempts)).Step(Fence(a.fence));
    if a.fence == 0 {
      var i := |m.calls|;
      assert f.calls[..i] == m.calls && f.calls[i + 1..] == [];
      assert FencedAt(f.calls, i);
      ContinuedLanguage(f.Enter(Fenced), a, i);
    }
  }

  lemma HandledLanguage(m: Machine, cfg: Config, ev: Event, a: Answers)
    requires Language(m.state, m.calls)
    ensures Language(Handled(m, cfg, ev, a).state, Handled(m, cfg, ev, a).calls)
  {
    hide Begun, Continued;
    match m.state {
      case Armed =>
        if ev == ProbeSilent { BegunLanguage(m.(silent := Next32(m.silent)), a); }
        if ev == Request { BegunLanguage(m, a); }
      case Suspect =>
        if ev == ProbeSilent { BegunLanguage(m.(silent := Next32(m.silent)), a); }
      case FenceFailed =>
        BegunLanguage(m, a);
      case Fenced =>
        var i :| FencedAt(m.calls, i) && i + 1 < |m.calls|;
        ContinuedLanguage(m, a, i);
      case TakenOver =>
    }
  }

  /**
   * For every run, the calls are failed fences, then one successful fence, then failed
   * adoptions, then one successful adoption with one preserve and a reap exactly when
   * the preserve succeeded; the state says how far along they are, and the machine never
   * rests in FENCING.
   */
  lemma {:induction false} RunLanguage(cfg: Config, inputs: seq<Input>)
    ensures Language(Run(cfg, inputs).state, Run(cfg, inputs).calls)
    decreases |inputs|
  {
    if inputs != [] {
      var last := inputs[|inputs| - 1];
      RunLanguage(cfg, inputs[..|inputs| - 1]);
      HandledLanguage(Run(cfg, inputs[..|inputs| - 1]), cfg, last.event, last.answers);
    }
  }

  // ---------------------------------------------------------------- bounded fencing

  function Fences(calls: seq<Call>): (n: nat) {
    if calls == [] then 0 else Fences(calls[..|calls| - 1]) + if calls[|calls| - 1].Fence? then 1 else 0
  }

  lemma FencesAppend(s: seq<Call>, c: Call)
    ensures Fences(s + [c]) == Fences(s) + if c.Fence? then 1 else 0
  {
    assert (s + [c])[..|s|] == s;
  }

  lemma ContinuedFences(m: Machine, a: Answers)
    ensures Fences(Continued(m, a).calls) == Fences(m.calls)
    ensures Continued(m, a).attempts == m.attempts && Continued(m, a).state in {m.state, TakenOver}
  {
    FencesAppend(m.calls, Adopt(a.adopt));
    var s := m.calls + [Adopt(a.adopt)];
    FencesAppend(s, Preserve(a.preserve));
    FencesAppend(s + [Preserve(a.preserve)], Reap(a.reap));
  }

  lemma BegunFences(m: Machine, a: Answers)
    ensures Fences(Begun(m, a).calls) == Fences(m.calls) + 1
    ensures Begun(m, a).attempts == Next32(m.attempts)
    ensures Begun(m, a).state in {FenceFailed, Fenced, TakenOver}
  {
    FencesAppend(m.calls, Fence(a.fence));
    var f := m.Enter(Fencing).(attempts := Next32(m.attempts)).Step(Fence(a.fence));
    ContinuedFences(f.Enter(Fenced), a);
  }

  /** The attempt counter counts the fences, and stays within the retries, unless it can wrap. */
  ghost predicate Counted(m: Machine, cfg: Config) {
    && m.attempts == Fences(m.calls) <= cfg.fenceRetries + 1
    && (m.state in {Armed, Suspect} ==> m.attempts == 0)
  }

  lemma HandledCounted(m: Machine, cfg: Config, ev: Event, a: Answers)
    requires cfg.fenceRetries < 0xFFFF_FFFF && Counted(m, cfg)
    ensures Counted(Handled(m, cfg, ev, a), cfg)
  {
    hide Begun, Continued, Fences;
    match m.state {
      case Armed => BegunFences(m, a); BegunFences(m.(silent := Next32(m.silent)), a);
      case Suspect => BegunFences(m.(silent := Next32(m.silent)), a);
      case FenceFailed => BegunFences(m, a);
      case Fenced => ContinuedFences(m, a);
      case Fencing =>
      case TakenOver =>
    }
  }

  lemma {:induction false} RunCounted(cfg: Config, inputs: seq<Input>)
    requires cfg.fenceRetries < 0xFFFF_FFFF
    ensures Counted(Run(cfg, inputs), cfg)
    decreases |inputs|
  {
    if inputs != [] {
      hide Handled;
      var last := inputs[|inputs| - 1];
      RunCounted(cfg, inputs[..|inputs| - 1]);
      HandledCounted(Run(cfg, inputs[..|inputs| - 1]), cfg, last.event, last.answers);
    }
  }

  /** `n` silences during which every fence fails. */
  function Stubborn(n: nat): seq<Input> {
    seq(n, i => Input(ProbeSilent, Answers(-1, 0, 0, 0)))
  }

  /** With retries at the largest 32-bit value the counter wraps and the fence is retried forever. */
  lemma {:induction false} StubbornFences(n: nat)
    requires n > 0
    ensures var m := Run(Config(1, 0xFFFF_FFFF), Stubborn(n));
            m.state == FenceFailed && Fences(m.calls) == n
    decreases n
  {
    var cfg, a := Config(1, 0xFFFF_FFFF), Answers(-1, 0, 0, 0);
    var s := Stubborn(n);
    assert s[..n - 1] == Stubborn(n - 1);
    var m := Run(cfg, Stubborn(n - 1));
    if n == 1 {
      assert m == Initial;
      BegunFences(m.(silent := 1), a);
    } else {
      StubbornFences(n - 1);
      BegunFences(m, a);
    }
  }

  /**
   * Whatever happens, at most `fence_retries + 1` fences are attempted: exactly when the
   * configured number of retries is below the largest 32-bit value.
   */
  lemma FencesBounded(retries: Word32)
    ensures retries < 0xFFFF_FFFF <==>
            forall timeouts: Word32, inputs: seq<Input> ::
              Fences(Run(Config(timeouts, retries), inputs).calls) <= retries + 1
  {
    hide Run, Fences;
    if retries < 0xFFFF_FFFF {
      forall timeouts: Word32, inputs: seq<Input>
        ensures Fences(Run(Config(timeouts, retries), inputs).calls) <= retries + 1
      {
        RunCounted(Config(timeouts, retries), inputs);
      }
    } else {
      StubbornFences(retries + 2);
      assert !(Fences(Run(Config(1, retries), Stubborn(retries + 2)).calls) <= retries + 1);
    }
  }

  // ---------------------------------------------------------------- evidence before the first fence

  /** Silent probes since the last alive one; handover requests neither count nor reset. */
  function SilentSinceAlive(inputs: seq<Input>): (n: nat)
    ensures n <= |inputs|
  {
    if inputs == [] then 0
    else
      match inputs[|inputs| - 1].event
      case ProbeAlive => 0
      case ProbeSilent => SilentSinceAlive(inputs[..|inputs| - 1]) + 1
      case Request => SilentSinceAlive(inputs[..|inputs| - 1])
  }

  /** The last input is what starts a takeover: enough silence, or a request with no silence pending. */
  predicate Triggers(cfg: Config, inputs: seq<Input>)
    requires inputs != []
  {
    match inputs[|inputs| - 1].event
    case ProbeAlive => false
    case ProbeSilent => SilentSinceAlive(inputs) >= cfg.probeTimeouts
    case Request => SilentSinceAlive(inputs) == 0
  }

  ghost predicate Triggered(cfg: Config, inputs: seq<Input>) {
    exists k :: 0 < k <= |inputs| && Triggers(cfg, inputs[..k])
  }

  predicate Watching(m: Machine) {
    m.state == Armed || m.state == Suspect
  }

  lemma TriggeredExtend(cfg: Config, inputs: seq<Input>)
    requires inputs != []
    ensures Triggered(cfg, inputs) <==> Triggered(cfg, inputs[..|inputs| - 1]) || Triggers(cfg, inputs)
  {
    var n := |inputs| - 1;
    forall k | 0 < k <= n ensures inputs[..n][..k] == inputs[..k] {}
    assert inputs[..n + 1] == inputs;
    if Triggered(cfg, inputs[..n]) {
      var k :| 0 < k <= n && Triggers(cfg, inputs[..n][..k]);
      assert Triggers(cfg, inputs[..k]);
    }
    if Triggers(cfg, inputs) { assert Triggers(cfg, inputs[..n + 1]); }
  }

  /** A watching machine knows the silences since the last sign of life. */
  ghost predicate Attentive(m: Machine, cfg: Config, silences: nat) {
    && m.silent == silences && m.calls == []
    && (silences == 0 <==> m.state == Armed)
    && (silences > 0 ==> silences < cfg.probeTimeouts)
  }

  lemma HandledWatching(m: Machine, cfg: Config, before: seq<Input>, last: Input)
    requires Watching(m) && Attentive(m, cfg, SilentSinceAlive(before))
    ensures var inputs := before + [last];
            var n := Handled(m, cfg, last.event, last.answers);
            && (Watching(n) <==> !Triggers(cfg, inputs))
            && (Watching(n) ==> Attentive(n, cfg, SilentSinceAlive(inputs)))
  {
    hide Begun, Continued;
    var inputs := before + [last];
    assert inputs[..|inputs| - 1] == before && inputs[|inputs| - 1] == last;
    BegunForward(m, last.answers);
    BegunForward(m.(silent := Next32(m.silent)), last.answers);
  }

  /**
   * The machine watches exactly as long as nothing has triggered: no `probe_timeouts`
   * silences in a row since the last sign of life, and no request while there was no
   * silence. While it watches, the state tells whether any silence is pending.
   */
  lemma {:induction false} WatchesUntilTriggered(cfg: Config, inputs: seq<Input>)
    ensures Watching(Run(cfg, inputs)) <==> !Triggered(cfg, inputs)
    ensures Watching(Run(cfg, inputs)) ==> Attentive(Run(cfg, inputs), cfg, SilentSinceAlive(inputs))
    decreases |inputs|
  {
    if inputs != [] {
      hide Handled, Triggers, SilentSinceAlive, Attentive, Triggered;
      var before, last := inputs[..|inputs| - 1], inputs[|inputs| - 1];
      var m := Run(cfg, before);
      assert inputs == before + [last];
      WatchesUntilTriggered(cfg, before);
      TriggeredExtend(cfg, inputs);
      if Watching(m) {
        HandledWatching(m, cfg, before, last);
      } else {
        RunLanguage(cfg, before);
        HandledForward(m, cfg, last.event, last.answers);
      }
    }
  }

  // ---------------------------------------------------------------- progress is one way

  function Rank(s: State): nat {
    match s
    case Armed => 0
    case Suspect => 0
    case FenceFailed => 1
    case Fencing => 1
    case Fenced => 2
    case TakenOver => 3
  }

  /** No event moves the machine back; after the takeover nothing changes any more. */
  lemma HandledForward(m: Machine, cfg: Config, ev: Event, a: Answers)
    requires m.state != Fencing
    ensures Rank(m.state) <= Rank(Handled(m, cfg, ev, a).state) && Handled(m, cfg, ev, a).state != Fencing
    ensures m.calls <= Handled(m, cfg, ev, a).calls && m.announced <= Handled(m, cfg, ev, a).announced
    ensures m.state == TakenOver ==> Handled(m, cfg, ev, a) == m
  {
    hide Begun, Continued;
    BegunForward(m, a);
    BegunForward(m.(silent := Next32(m.silent)), a);
    ContinuedForward(m, a);
  }

  lemma ContinuedForward(m: Machine, a: Answers)
    ensures Continued(m, a).state in {m.state, TakenOver}
    ensures m.calls <= Continued(m, a).calls && m.announced <= Continued(m, a).announced
  {
  }

  lemma BegunForward(m: Machine, a: Answers)
    ensures Begun(m, a).state in {FenceFailed, Fenced, TakenOver}
    ensures m.calls <= Begun(m, a).calls && m.announced <= Begun(m, a).announced
  {
    var f := m.Enter(Fencing).(attempts := Next32(m.attempts)).Step(Fence(a.fence)).Enter(Fenced);
    ContinuedForward(f, a);
  }

  /** Once a run has left the watching states no continuation of it re-enters them. */
  lemma {:induction false} NeverWatchesAgain(cfg: Config, inputs: seq<Input>, more: seq<Input>)
    ensures Rank(Run(cfg, inputs).state) <= Rank(Run(cfg, inputs + more).state)
    ensures Run(cfg, inputs).calls <= Run(cfg, inputs + more).calls
    ensures Run(cfg, inputs).state == TakenOver ==> Run(cfg, inputs + more) == Run(cfg, inputs)
    decreases |more|
  {
    if more == [] {
      assert inputs + more == inputs;
    } else {
      var most := more[..|more| - 1];
      assert (inputs + more)[..|inputs + more| - 1] == inputs + most;
      NeverWatchesAgain(cfg, inputs, most);
      RunLanguage(cfg, inputs + most);
      var last := more[|more| - 1];
      HandledForward(Run(cfg, inputs + most), cfg, last.event, last.answers);
    }
  }
}
