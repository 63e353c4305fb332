/** What every reachable state of the protocol satisfies. */
module Invariants {
  import opened Domain
  import opened Store
  import opened Lifecycle
  import opened Protocol
  import opened Footprints

  /** Each lock holder is a canonical Event of the locked Area, with a window of its own; only an active one may
      be linked already. */
  ghost predicate FlightsOk(s: Sys) {
    && (s.flights != map[] ==> s.phase.Running?)
    && forall a | a in s.flights ::
         s.flights[a].key in s.core.db.events && s.core.db.events[s.flights[a].key].area == a
         && Correlatable(s.core.db.events[s.flights[a].key]) && 1 <= s.flights[a].window
  }

  ghost predicate Sound(s: Sys) {
    Consistent(s.core.db) && FlightsOk(s) && ValidGrace(s.core.grace)
  }

  ghost predicate WellFormedUpTo(db: Db, p: seq<Commit>, n: nat)
    requires n <= |p|
  {
    forall i | 0 <= i < n :: WellFormed(RunTo(db, p, i), p[i])
  }

  lemma RunConsistent(db: Db, p: seq<Commit>, n: nat)
    requires n <= |p| && Consistent(db) && WellFormedUpTo(db, p, n)
    ensures Consistent(RunTo(db, p, n))
  {
    if n != 0 {
      RunConsistent(db, p, n - 1);
      ApplyConsistent(RunTo(db, p, n - 1), p[n - 1]);
    }
  }

  lemma ReceiptsOnlyConsistent(db: Db, db': Db)
    requires Consistent(db) && ReceiptsOnly(db, db')
    ensures Consistent(db')
  {
    SameCountsConsistent(db, db');
  }

  /** Correlation links an Event only to an Episode of its own Area. */
  lemma SettleWellFormed(c: Core, k: Key, at: Time, window: int, recovery: bool, n: nat)
    requires k in c.db.events && Correlatable(c.db.events[k]) && Consistent(c.db)
    requires n <= |SettleProgram(c, k, at, window, recovery)|
    ensures WellFormedUpTo(c.db, SettleProgram(c, k, at, window, recovery), n)
  {
    var db := c.db;
    var e := db.events[k];
    forall i | 0 <= i < n
      ensures WellFormed(RunTo(db, SettleProgram(c, k, at, window, recovery), i),
                         SettleProgram(c, k, at, window, recovery)[i])
    {
      if e.episode.Some? {
        HeldWellFormed(c, k, at, window, recovery, i);
      } else if e.state.InactiveEvent? {
        InactivePrefix(db, k, i);
        var j :| Precedes(db.events, j, k) && db.events[j].episode == InactiveTarget(db, k);
      } else if e.Drives() {
        var target := Target(c, k, at, recovery);
        if target.Some? {
          JoinPrefix(db, k, target.value, at, window, i);
        } else {
          CreatePrefix(db, k, at, window, i);
        }
      }
    }
  }

  lemma HeldWellFormed(c: Core, k: Key, at: Time, window: int, recovery: bool, i: nat)
    requires k in c.db.events && c.db.events[k].episode.Some? && c.db.events[k].state.ActiveEvent?
    requires i < |SettleProgram(c, k, at, window, recovery)|
    ensures WellFormed(RunTo(c.db, SettleProgram(c, k, at, window, recovery), i), SettleProgram(c, k, at, window, recovery)[i])
  {
    if c.db.events[k].Drives() {
      HeldDrivePrefix(c, k, at, window, recovery, i);
    } else {
      HeldAttachPrefix(c, k, at, recovery, i);
    }
  }

  lemma CorrelationConsistent(x: Correlation, m: nat)
    requires x.runs ==> x.key in x.core.db.events && Correlatable(x.core.db.events[x.key])
    requires Consistent(x.core.db) && m <= |CorrelationProgram(x)|
    ensures Consistent(RunTo(x.core.db, CorrelationProgram(x), m))
  {
    if x.runs {
      SettleWellFormed(x.core, x.key, x.at, x.window, x.recovery, m);
      RunConsistent(x.core.db, CorrelationProgram(x), m);
    }
  }

  lemma ActionConsistent(s: Sys, a: Action, n: nat)
    requires Sound(s) && Enabled(s, a) && n <= |Program(s, a)|
    ensures Consistent(RunTo(s.core.db, Program(s, a), n))
  {
    if Correlates(a) {
      var db', m, early := CorrelatingPrefix(s, a, n);
      if early {
        ReceiptsOnlyConsistent(s.core.db, db');
      } else {
        ReceiptsOnlyConsistent(s.core.db, CorrelationOf(s, a).core.db);
        CorrelationConsistent(CorrelationOf(s, a), m);
      }
    } else {
      RunConsistent(s.core.db, Program(s, a), n);
    }
  }

  /** What correlation keeps of its own Event. */
  predicate SameKind(e: Event, e': Event) {
    e'.area == e.area && e'.state == e.state && (e'.Drives() <==> e.Drives())
    && (e.episode.Some? ==> e'.episode == e.episode)
  }

  /** Correlation never touches another Event, and keeps what its own one is. */
  lemma SettleTouchesOnly(c: Core, k: Key, at: Time, window: int, recovery: bool, n: nat)
    requires k in c.db.events && Correlatable(c.db.events[k])
    requires n <= |SettleProgram(c, k, at, window, recovery)|
    ensures var db' := RunTo(c.db, SettleProgram(c, k, at, window, recovery), n);
            db'.events.Keys == c.db.events.Keys && SameKind(c.db.events[k], db'.events[k])
            && forall j | j in c.db.events && j != k :: db'.events[j] == c.db.events[j]
  {
    var e := c.db.events[k];
    if e.area == NO_AREA {
    } else if e.episode.Some? {
      HeldTouchesOnly(c, k, at, window, recovery, n);
    } else if e.state.InactiveEvent? {
      InactivePrefix(c.db, k, n);
    } else if e.Drives() {
      DriveTouchesOnly(c, k, at, window, recovery, n);
    } else if e.decision.Some? && e.decision.value.classFiltered {
      AttachPrefix(c, k, at, recovery, n);
    }
  }

  lemma DriveTouchesOnly(c: Core, k: Key, at: Time, window: int, recovery: bool, n: nat)
    requires k in c.db.events && c.db.events[k].episode.None? && n <= |DriveProgram(c, k, at, window, recovery)|
    ensures var db' := RunTo(c.db, DriveProgram(c, k, at, window, recovery), n);
            db'.events.Keys == c.db.events.Keys && SameKind(c.db.events[k], db'.events[k])
            && forall j | j in c.db.events && j != k :: db'.events[j] == c.db.events[j]
  {
    var target := Target(c, k, at, recovery);
    if target.Some? {
      JoinPrefix(c.db, k, target.value, at, window, n);
    } else {
      CreatePrefix(c.db, k, at, window, n);
    }
  }

  /** An Event that has an Episode keeps it. */
  lemma HeldTouchesOnly(c: Core, k: Key, at: Time, window: int, recovery: bool, n: nat)
    requires k in c.db.events && c.db.events[k].episode.Some? && c.db.events[k].state.ActiveEvent?
    requires n <= |SettleProgram(c, k, at, window, recovery)|
    ensures var db' := RunTo(c.db, SettleProgram(c, k, at, window, recovery), n);
            db'.events.Keys == c.db.events.Keys && SameKind(c.db.events[k], db'.events[k])
            && forall j | j in c.db.events && j != k :: db'.events[j] == c.db.events[j]
  {
    if c.db.events[k].area == NO_AREA {
    } else if c.db.events[k].Drives() {
      HeldDrivePrefix(c, k, at, window, recovery, n);
    } else if c.db.events[k].decision.Some? && c.db.events[k].decision.value.classFiltered {
      HeldAttachPrefix(c, k, at, recovery, n);
    }
  }

  /** Beyond its Receipts a correlating step touches no Event but its own. */
  lemma CorrelationTouchesOnly(s: Sys, a: Action)
    requires FlightsOk(s) && Enabled(s, a) && Correlates(a)
    ensures var x, db' := CorrelationOf(s, a), Next(s, a).core.db;
      db'.events.Keys == x.core.db.events.Keys
      && (x.runs ==> SameKind(x.core.db.events[x.key], db'.events[x.key]))
      && forall j | j in x.core.db.events && !(x.runs && j == x.key) :: db'.events[j] == x.core.db.events[j]
  {
    var x := CorrelationOf(s, a);
    RunsCorrelatable(s, a);
    NextSettles(s, a);
    if x.runs {
      SettleTouchesOnly(x.core, x.key, x.at, x.window, x.recovery, |CorrelationProgram(x)|);
      assert Next(s, a).core.db == Run(x.core.db, CorrelationProgram(x));
    }
  }

  /** A redelivery or a recovery may link an active Event; what else it is stays. */
  lemma CorrelationKeepsKinds(s: Sys, a: Action)
    requires Sound(s) && Enabled(s, a) && Correlates(a)
    ensures var db, db' := s.core.db, Next(s, a).core.db;
            db'.events.Keys == db.events.Keys
            && forall j | j in db.events ::
                 SameKind(db.events[j], db'.events[j])
                 && (a != SettleFlight(j) && Correlatable(db.events[j]) ==> Correlatable(db'.events[j]))
  {
    var x := CorrelationOf(s, a);
    var db' := Next(s, a).core.db;
    RunsCorrelatable(s, a);
    CorrelationTouchesOnly(s, a);
    forall j | j in s.core.db.events
      ensures SameKind(s.core.db.events[j], db'.events[j])
              && (a != SettleFlight(j) && Correlatable(s.core.db.events[j]) ==> Correlatable(db'.events[j]))
    {
      assert SameKind(x.core.db.events[j], db'.events[j]);
    }
  }

  lemma RunsCorrelatable(s: Sys, a: Action)
    requires FlightsOk(s) && Enabled(s, a) && Correlates(a)
    ensures var x := CorrelationOf(s, a);
            x.runs ==> Correlatable(x.core.db.events[x.key]) && (x.recovery || a == SettleFlight(x.key))
                       && (x.recovery ==> x.core.db.events[x.key].state.ActiveEvent?)
  {
  }

  lemma CorrelationKeepsFlights(s: Sys, a: Action)
    requires Sound(s) && Enabled(s, a) && Correlates(a)
    ensures FlightsOk(Next(s, a))
  {
    CorrelationKeepsKinds(s, a);
    forall b | b in Next(s, a).flights
      ensures var s' := Next(s, a);
        s'.flights[b].key in s'.core.db.events && s'.core.db.events[s'.flights[b].key].area == b
        && Correlatable(s'.core.db.events[s'.flights[b].key]) && 1 <= s'.flights[b].window
    {
      assert b in s.flights && Next(s, a).flights[b] == s.flights[b];
    }
  }

  lemma GraceKept(s: Sys, a: Action)
    requires Sound(s) && Enabled(s, a)
    ensures ValidGrace(Next(s, a).core.grace)
  {
    if Correlates(a) {
      NextSettles(s, a);
    }
  }

  lemma FlightsKept(s: Sys, a: Action)
    requires Sound(s) && Enabled(s, a)
    ensures FlightsOk(Next(s, a))
  {
    if Correlates(a) {
      CorrelationKeepsFlights(s, a);
    } else if a.AddEvidence? || a.PlaceEvidence? {
      EvidenceKeepsFlights(s, a);
    } else if a.Begin? || a.LinkFlight? || a.BackfillOne? {
      ReceiptsKeepFlights(s, a);
    } else {
      RowsKeepFlights(s, a);
    }
  }

  lemma EvidenceKeepsFlights(s: Sys, a: Action)
    requires FlightsOk(s) && Enabled(s, a) && (a.AddEvidence? || a.PlaceEvidence?)
    ensures FlightsOk(Next(s, a))
  {
    EvidencePrefix(s.core.db, Program(s, a), |Program(s, a)|);
  }

  lemma ReceiptsKeepFlights(s: Sys, a: Action)
    requires FlightsOk(s) && Enabled(s, a) && (a.Begin? || a.LinkFlight? || a.BackfillOne?)
    ensures FlightsOk(Next(s, a))
  {
  }

  lemma RowsKeepFlights(s: Sys, a: Action)
    requires FlightsOk(s) && Enabled(s, a) && !Correlates(a)
    requires !a.AddEvidence? && !a.PlaceEvidence? && !a.Begin? && !a.LinkFlight? && !a.BackfillOne?
    ensures FlightsOk(Next(s, a))
  {
  }

  /** Every step, crashes included, keeps links in their Area, counters exact and locks honest. */
  lemma SoundStep(s: Sys, step: Step)
    requires Sound(s) && StepEnabled(s, step)
    ensures Sound(Take(s, step))
  {
    if step.Do? {
      NextCommitsProgram(s, step.action);
      ActionConsistent(s, step.action, |Program(s, step.action)|);
      FlightsKept(s, step.action);
      GraceKept(s, step.action);
    } else {
      ActionConsistent(s, step.action, step.committed);
    }
  }

  lemma {:induction false} SoundRun(s: Sys, steps: seq<Step>)
    requires Sound(s) && Behaves(s, steps)
    ensures Sound(After(s, steps))
    decreases |steps|
  {
    if steps != [] {
      SoundStep(s, steps[0]);
      SoundRun(Take(s, steps[0]), steps[1..]);
    }
  }
}
