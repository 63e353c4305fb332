/** Runs without crashes or recovery, and the little they need to know of the past. */
module SteadyRuns {
  import opened Domain
  import opened Store
  import opened Lifecycle
  import opened Protocol
  import opened Footprints
  import opened Invariants
  import opened Overtaking
  import opened CrashRecovery

  /** The actions of a run without crashes, restarts or recovery. */
  predicate Live(step: Step) {
    step.Do? && !step.action.StartUp? && !step.action.BackfillOne? && !step.action.RecoverOne?
    && !step.action.FinishRecovery?
  }

  ghost predicate LiveRun(steps: seq<Step>) {
    forall step | step in steps :: Live(step)
  }

  /** The system runs, and the first delivery of every Event still to be correlated holds the lock of its Area. */
  ghost predicate Steady(s: Sys) {
    Sound(s) && s.phase.Running? && OrphansHeld(s)
  }

  lemma SettledIsNotPending(c: Core, k: Key, at: Time, window: int)
    requires k in c.db.events && Correlatable(c.db.events[k])
    ensures var db' := Settle(c, k, at, window, false).db; k in db'.events && !db'.events[k].Pending()
  {
    var db := c.db;
    var e := db.events[k];
    var p := SettleProgram(c, k, at, window, false);
    if e.area == NO_AREA {
    } else if e.episode.Some? {
      HeldTouchesOnly(c, k, at, window, false, |p|);
    } else if e.state.InactiveEvent? {
      InactivePrefix(db, k, |p|);
    } else if e.Drives() {
      DriveIsNotPending(c, k, at, window);
    } else if e.decision.Some? && e.decision.value.classFiltered {
      AttachPrefix(c, k, at, false, |p|);
    }
  }

  lemma DriveIsNotPending(c: Core, k: Key, at: Time, window: int)
    requires k in c.db.events && c.db.events[k].episode.None?
    ensures var db' := Run(c.db, DriveProgram(c, k, at, window, false)); k in db'.events && !db'.events[k].Pending()
  {
    var target := Target(c, k, at, false);
    if target.Some? {
      JoinPrefix(c.db, k, target.value, at, window, |JoinProgram(c.db, k, target.value, at, window)|);
    } else {
      CreatePrefix(c.db, k, at, window, 4);
    }
  }

  lemma SettleSteady(s: Sys, k: Key)
    requires Steady(s) && Enabled(s, SettleFlight(k))
    ensures OrphansHeld(Next(s, SettleFlight(k)))
  {
    var s', f := Next(s, SettleFlight(k)), FlightOf(s, k);
    SettledIsNotPending(s.core, k, f.at, f.window);
    SettleTouchesOnly(s.core, k, f.at, f.window, false, |SettleProgram(s.core, k, f.at, f.window, false)|);
    forall j | j in s'.core.db.events && s'.core.db.events[j].Pending() ensures InFlight(s', j) {
      assert j != k && InFlight(s, j);
    }
  }

  lemma RedeliverSteady(s: Sys, a: Action)
    requires Steady(s) && Enabled(s, a) && a.RedeliverKnown?
    ensures OrphansHeld(Next(s, a))
  {
    if Resumes(s, a) {
      ResumedOthers(s, a);
    } else {
      RedeliveryInertExactly(s, a);
    }
    forall j | j in Next(s, a).core.db.events && Next(s, a).core.db.events[j].Pending() ensures InFlight(Next(s, a), j) {
      assert s.core.db.events[j].Pending();
    }
  }

  lemma DeliverySteady(s: Sys, a: Action)
    requires Steady(s) && Enabled(s, a) && (a.Begin? || a.LinkFlight?)
    ensures OrphansHeld(Next(s, a))
  {
    var s' := Next(s, a);
    forall j | j in s'.core.db.events && s'.core.db.events[j].Pending() ensures InFlight(s', j) {
      if a.Begin? && j == a.d.key {
        assert s'.flights[a.d.area].key == j;
      } else {
        assert s.core.db.events[j].Pending() && InFlight(s, j);
      }
    }
  }

  lemma EvidenceSteady(s: Sys, a: Action)
    requires Steady(s) && Enabled(s, a) && (a.AddEvidence? || a.PlaceEvidence?)
    ensures OrphansHeld(Next(s, a))
  {
    EvidencePrefix(s.core.db, Program(s, a), |Program(s, a)|);
  }

  /** Every live step keeps the system steady, whatever was delivered, redelivered, and however late it was decided. */
  lemma SteadyStep(s: Sys, step: Step)
    requires Steady(s) && StepEnabled(s, step) && Live(step)
    ensures Steady(Take(s, step))
  {
    var a := step.action;
    SoundStep(s, step);
    match a
    case SettleFlight(k) => SettleSteady(s, k);
    case RedeliverKnown(_, _) => RedeliverSteady(s, a);
    case Begin(_) => DeliverySteady(s, a);
    case LinkFlight(_) => DeliverySteady(s, a);
    case AddEvidence(_, _, _, _) => EvidenceSteady(s, a);
    case PlaceEvidence(_, _) => EvidenceSteady(s, a);
    case _ =>
  }
}
