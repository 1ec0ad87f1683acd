/** The record of the memory kept for the next pool, against what is hot-added to this kernel. */
module Claims {
  import opened Bytes
  import opened Options
  import opened Rounding
  import opened Ranges
  import opened Records
  import opened Plans
  import opened Effects
  import opened Machines
  import opened Operations
  import opened Safety

  /** No address of the range the record names is in `memory`. */
  ghost predicate Apart(memory: seq<Range>, record: Option<seq<Byte>>) {
    Named(record).Some? ==> forall a :: Named(record).value.Has(a) ==> !Covers(memory, a)
  }

  /**
   * Whether what plan `p` hot-adds stays clear of the record, told from the record before the
   * plan and how writing it went: the record was written whole; or it was cut before a
   * digit of the size; or nothing was written, and what the old record names, if anything,
   * is no memory the plan could take.
   */
  ghost predicate KeepsClear(p: Plan, before: Option<seq<Byte>>)
    requires p.granule > 0
  {
    match p.attempt
    case Attempt(_, Whole) => true
    case Attempt(claim, Cut(n)) => claim.size == 0 || n < Names(claim)
    case _ => Named(before).Some? ==> forall a :: Named(before).value.Has(a) ==> !Rounded(p.memory, p.granule, a)
  }

  /** What is not recorded whole is taken from nothing: the whole attempted claim is adoptable. */
  lemma UnrecordedIsAdoptable(cfg: OpsConfig, p: Plan)
    requires PlanOf(cfg, p) && p.attempt.Attempt? && !p.Recorded()
    ensures forall a :: p.attempt.claim.Has(a) ==> Covers(p.adoptable, a)
  {
    hide Canonical, IsTakeable, IsCpuDifference, Aligned, Want;
    var a0: seq<Range> :| Aligned(a0, p.memory, p.granule) && CarvedFrom(p, a0, cfg.next);
    var x :| Largest(a0, x) && x.base <= p.attempt.claim.base && p.attempt.claim.End() == x.End();
    var i :| 0 <= i < |a0| && a0[i] == x;
    forall a | p.attempt.claim.Has(a) ensures Covers(p.adoptable, a) { assert a0[i].Has(a); }
  }

  lemma AttemptIsRecordable(cfg: OpsConfig, p: Plan)
    requires PlanOf(cfg, p)
    ensures p.granule > 0 && Recordable(p.attempt) && (p.Recorded() ==> p.Claim().size > 0)
  {
  }

  /** A plan's memory is clear of the record it leaves exactly as `KeepsClear` says. */
  lemma PlanMeetsRecord(cfg: OpsConfig, p: Plan, before: Option<seq<Byte>>)
    requires PlanOf(cfg, p) && p.granule > 0
    ensures Apart(p.adoptable, AfterAttempt(before, p.attempt)) <==> KeepsClear(p, before)
  {
    hide Covers, Planned, Rounded, ClaimText, ParseClaim;
    AttemptIsRecordable(cfg, p);
    match p.attempt {
      case Attempt(claim, Whole) =>
        ClaimRoundTrip(claim);
        ClaimApart(p, cfg.hostCpus, cfg.ownCpus, cfg.next, cfg.hasPath);
      case Attempt(claim, Cut(n)) =>
        CutReads(claim, n);
        UnrecordedIsAdoptable(cfg, p);
        if claim.size != 0 && n >= Names(claim) {
          var read := ParseClaim(ClaimText(claim)[..n]).value;
          assert read.Has(read.base) && claim.Has(read.base);
        }
      case _ =>
        PlannedIsRounded(p, cfg.hostCpus, cfg.ownCpus, cfg.next, cfg.hasPath);
    }
  }

  /** Between a plan and the next the record is what the plan left. */
  lemma RecordInForce(file: Option<seq<Byte>>, t: seq<Effect>, q: int, k: int)
    requires InForce(t, q, k)
    ensures RecordAfter(file, t[..k]) == AfterAttempt(RecordAfter(file, t[..q]), t[q].plan.attempt)
  {
    hide RecordAfter, AfterAttempt;
    RecordStep(file, t[..q], t[q]);
    var rest := t[q + 1..k];
    forall e | e in rest ensures !IsPlanning(e) {
      var i :| 0 <= i < |rest| && rest[i] == e;
      assert e == t[q + 1 + i];
    }
    RecordUntouched(file, t[..q] + [t[q]], rest);
    assert t[..k] == t[..q] + [t[q]] + rest;
  }

  /**
   * Every offer of memory in every run, against the record at that moment: they are disjoint
   * exactly when the plan in force kept clear of it.
   */
  lemma OfferMeetsRecord(s: System, cfg: OpsConfig, k: int) returns (q: int)
    requires Sound(s, cfg) && 0 <= k < |s.ops.trace| && s.ops.trace[k].Offer? && s.ops.trace[k].memory != []
    ensures var t := s.ops.trace;
            && InForce(t, q, k) && t[q].plan.granule > 0
            && (Apart(t[k].memory, RecordAfter(cfg.record, t[..k])) <==>
                KeepsClear(t[q].plan, RecordAfter(cfg.record, t[..q])))
  {
    hide Layout, Apart, KeepsClear, PlanOf, RecordAfter, AfterAttempt;
    var t := s.ops.trace;
    var i, j :| Underway(cfg, s.ops, i, j);
    q := OfferPlan(cfg, s.ops.dump, t, i, j, k);
    AttemptIsRecordable(cfg, t[q].plan);
    RecordInForce(cfg.record, t, q, k);
    PlanMeetsRecord(cfg, t[q].plan, RecordAfter(cfg.record, t[..q]));
  }

  lemma RunMeetsRecord(tk: Config, cfg: OpsConfig, dump: bool, network: bool, inputs: seq<(Event, World)>, k: int)
    returns (q: int)
    requires PlausibleInputs(cfg, inputs)
    requires var t := SystemRun(tk, cfg, dump, network, inputs).ops.trace;
             0 <= k < |t| && t[k].Offer? && t[k].memory != []
    ensures var t := SystemRun(tk, cfg, dump, network, inputs).ops.trace;
            && InForce(t, q, k) && t[q].plan.granule > 0
            && (Apart(t[k].memory, RecordAfter(cfg.record, t[..k])) <==>
                KeepsClear(t[q].plan, RecordAfter(cfg.record, t[..q])))
  {
    hide Sound, Apart, KeepsClear;
    RunSound(tk, cfg, dump, network, inputs);
    q := OfferMeetsRecord(SystemRun(tk, cfg, dump, network, inputs), cfg, k);
  }
}
