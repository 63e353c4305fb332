/** The engine's remembered deadlines agree with the database, and its last published leases with
    both, across deliveries, grace changes, timer passes, crashes and restarts. */
module DeadlineCache {
  import opened Domain
  import opened Store
  import opened Lifecycle
  import opened Protocol
  import opened Footprints
  import opened Invariants
  import opened Overtaking

  /** Every open Episode with a persisted deadline is remembered with that deadline. */
  ghost predicate DeadlinesAgree(c: Core) {
    && (forall id | id in c.deadlines :: id < |c.db.episodes|)
    && forall id | 0 <= id < |c.db.episodes| && c.db.episodes[id].Open() && c.db.episodes[id].minimumEnd.Some? ::
         id in c.deadlines && c.deadlines[id] == c.db.episodes[id].minimumEnd.value
  }

  /** A lease published under the current revision is the remembered deadline plus the grace. */
  ghost predicate LeasesAgree(c: Core) {
    forall id | id in c.leases ::
      && c.leases[id].revision <= c.revision
      && (c.leases[id].revision == c.revision && id in c.deadlines ==>
            c.leases[id].until == c.deadlines[id] + c.grace)
  }

  ghost predicate Agreement(s: Sys) {
    !s.phase.Down? ==> DeadlinesAgree(s.core) && LeasesAgree(s.core)
  }

  // ----- what one call does ------------------------------------------------------------------------

  /** Rows keep their deadlines and nothing opens. */
  ghost predicate RowsSettle(rows: seq<Episode>, rows': seq<Episode>) {
    && |rows'| == |rows|
    && forall id | 0 <= id < |rows| ::
         rows'[id].minimumEnd == rows[id].minimumEnd
         && (rows'[id].Open() ==> rows[id].Open())
  }

  lemma SettledRowsAgree(c: Core, c': Core)
    requires DeadlinesAgree(c) && LeasesAgree(c) && RowsSettle(c.db.episodes, c'.db.episodes)
    requires c' == c.(db := c'.db, deadlines := c'.deadlines, defer := c'.defer)
    requires forall id | id in c'.deadlines :: id in c.deadlines && c'.deadlines[id] == c.deadlines[id]
    requires forall id | id in c.deadlines && c'.db.episodes[id].Open() :: id in c'.deadlines
    ensures DeadlinesAgree(c') && LeasesAgree(c')
  {
  }

  /** Remembering and publishing the deadline a row now has restores agreement for that row. */
  lemma RowAgrees(c: Core, c': Core, id: EpisodeId, r: Episode)
    requires DeadlinesAgree(c) && LeasesAgree(c)
    requires (id < |c.db.episodes| && c'.db.episodes == c.db.episodes[id := r])
             || (id == |c.db.episodes| && c'.db.episodes == c.db.episodes + [r])
    requires r.minimumEnd.Some? && c'.grace == c.grace && c'.revision == c.revision
    requires c'.deadlines == c.deadlines[id := r.minimumEnd.value]
    requires c'.leases == c.leases[id := Lease(c.revision, r.minimumEnd.value + c.grace)]
    ensures DeadlinesAgree(c') && LeasesAgree(c')
  {
  }

  /** The row has a persisted deadline, or the new one is no earlier than what memory holds for it. */
  predicate JoinsInTime(c: Core, id: EpisodeId, end: Time)
    requires id < |c.db.episodes|
  {
    c.db.episodes[id].minimumEnd.None? && id in c.deadlines ==> c.deadlines[id] <= end
  }

  /** The row after joining, for the first time or once more. */
  lemma JoinedRow(db: Db, k: Key, id: EpisodeId, at: Time, window: int) returns (r: Episode)
    requires k in db.events && id < |db.episodes| && db.episodes[id].Open() && !HeldElsewhere(db.events[k], Some(id))
    ensures Run(db, JoinProgram(db, k, id, at, window)).episodes == db.episodes[id := r]
    ensures r.Open() && r.minimumEnd == WithMinimumEnd(db.episodes[id], at + window).minimumEnd
  {
    var n := |JoinProgram(db, k, id, at, window)|;
    r := JoinRow(db.episodes[id], db.events[k].timestamp, at, window, n);
    if db.events[k].episode.None? {
      JoinPrefix(db, k, id, at, window, n);
    } else {
      RejoinPrefix(db, k, id, at, window, n);
      r := r.(eventCount := db.episodes[id].eventCount);
    }
  }

  /** Joining keeps the leases, and keeps the deadlines exactly when it joins in time. */
  lemma JoinAgreesExactly(c: Core, k: Key, id: EpisodeId, at: Time, window: int)
    requires k in c.db.events && id < |c.db.episodes| && c.db.episodes[id].Open()
    requires !HeldElsewhere(c.db.events[k], Some(id)) && DeadlinesAgree(c) && LeasesAgree(c)
    ensures var db' := Run(c.db, JoinProgram(c.db, k, id, at, window));
            var c' := RememberAndPublish(c, Some(id), at + window).(db := db');
            (DeadlinesAgree(c') <==> JoinsInTime(c, id, at + window)) && LeasesAgree(c')
  {
    var r := JoinedRow(c.db, k, id, at, window);
    var c' := RememberAndPublish(c, Some(id), at + window).(db := Run(c.db, JoinProgram(c.db, k, id, at, window)));
    assert c'.db.episodes[id] == r && r.Open();
    if JoinsInTime(c, id, at + window) {
      RowAgrees(c, c', id, r);
    }
  }

  lemma CreateAgrees(c: Core, k: Key, at: Time, window: int)
    requires k in c.db.events && c.db.events[k].episode.None?
    requires DeadlinesAgree(c) && LeasesAgree(c)
    ensures var db' := Run(c.db, CreateProgram(c.db, k, at, window));
            var c' := RememberAndPublish(c, None, at + window).(db := db');
            DeadlinesAgree(c') && LeasesAgree(c')
  {
    CreatePrefix(c.db, k, at, window, 4);
    var db' := Run(c.db, CreateProgram(c.db, k, at, window));
    RowAgrees(c, RememberAndPublish(c, None, at + window).(db := db'), |c.db.episodes|,
              CreatedRow(NewEpisode(c.db.events[k], at, window), 4));
  }

  lemma InactiveSettles(db: Db, k: Key)
    requires k in db.events && db.events[k].episode.None?
    ensures RowsSettle(db.episodes, Run(db, InactiveProgram(db, k)).episodes)
  {
    InactivePrefix(db, k, |InactiveProgram(db, k)|);
  }

  lemma AttachSettles(c: Core, k: Key, at: Time, recovery: bool)
    requires k in c.db.events && c.db.events[k].episode.None?
    ensures RowsSettle(c.db.episodes, Run(c.db, AttachProgram(c, k, at, recovery)).episodes)
  {
    AttachPrefix(c, k, at, recovery, |AttachProgram(c, k, at, recovery)|);
  }

  /** A new Episode whose Event turns out to have one already is never remembered. */
  lemma EmptyRowDisagrees(c: Core, k: Key, at: Time, window: int, recovery: bool)
    requires k in c.db.events && HeldElsewhere(c.db.events[k], Target(c, k, at, recovery)) && DeadlinesAgree(c) && LeasesAgree(c)
    ensures var c' := c.(db := Run(c.db, DriveProgram(c, k, at, window, recovery)));
            LeasesAgree(c') && (DeadlinesAgree(c') <==> Target(c, k, at, recovery).Some?)
  {
    var p, target := DriveProgram(c, k, at, window, recovery), Target(c, k, at, recovery);
    HeldDrivePrefix(c, k, at, window, recovery, |p|);
    if target.None? {
      var rows := Run(c.db, p).episodes;
      assert rows[|c.db.episodes|] == NewEpisode(c.db.events[k], at, window) && |c.db.episodes| !in c.deadlines;
    }
  }

  lemma HeldAttachSettles(c: Core, k: Key, at: Time, recovery: bool)
    requires k in c.db.events && c.db.events[k].episode.Some?
    ensures RowsSettle(c.db.episodes, Run(c.db, AttachProgram(c, k, at, recovery)).episodes)
  {
    HeldAttachPrefix(c, k, at, recovery, |AttachProgram(c, k, at, recovery)|);
  }

  /** Where correlating the Event would join, it joins in time or raises; and it opens no Episode for an Event
      that has one. */
  ghost predicate SettlesInTime(c: Core, k: Key, at: Time, window: int, recovery: bool)
    requires k in c.db.events
  {
    var e, target := c.db.events[k], Target(c, k, at, recovery);
    e.Drives() && e.area != NO_AREA ==>
      if target.Some? then HeldElsewhere(e, target) || JoinsInTime(c, target.value, at + window) else e.episode.None?
  }

  lemma SettleAgreesExactly(c: Core, k: Key, at: Time, window: int, recovery: bool)
    requires k in c.db.events && Correlatable(c.db.events[k]) && DeadlinesAgree(c) && LeasesAgree(c)
    ensures var c' := Settle(c, k, at, window, recovery);
            (DeadlinesAgree(c') <==> SettlesInTime(c, k, at, window, recovery)) && LeasesAgree(c')
  {
    var e := c.db.events[k];
    if e.area == NO_AREA {
    } else if e.state.InactiveEvent? {
      InactiveSettles(c.db, k);
      SettledRowsAgree(c, c.(db := Run(c.db, InactiveProgram(c.db, k))));
    } else if e.Drives() {
      DriveAgreesExactly(c, k, at, window, recovery);
    } else if e.decision.Some? && e.decision.value.classFiltered {
      if e.episode.None? {
        AttachSettles(c, k, at, recovery);
      } else {
        HeldAttachSettles(c, k, at, recovery);
      }
      SettledRowsAgree(c, c.(db := Run(c.db, AttachProgram(c, k, at, recovery))));
    }
  }

  lemma DriveAgreesExactly(c: Core, k: Key, at: Time, window: int, recovery: bool)
    requires k in c.db.events && c.db.events[k].Drives() && c.db.events[k].area != NO_AREA
    requires DeadlinesAgree(c) && LeasesAgree(c)
    ensures var c' := Settle(c, k, at, window, recovery);
            (DeadlinesAgree(c') <==> SettlesInTime(c, k, at, window, recovery)) && LeasesAgree(c')
  {
    var target := Target(c, k, at, recovery);
    if HeldElsewhere(c.db.events[k], target) {
      EmptyRowDisagrees(c, k, at, window, recovery);
    } else if target.Some? {
      JoinAgreesExactly(c, k, target.value, at, window);
    } else {
      CreateAgrees(c, k, at, window);
    }
  }

  /** The action joins in time, if it joins at all, and opens no Episode in vain. */
  ghost predicate InTime(s: Sys, a: Action)
    requires Enabled(s, a)
  {
    Correlates(a) ==> var x := CorrelationOf(s, a);
      x.runs ==> SettlesInTime(x.core, x.key, x.at, x.window, x.recovery)
  }

  lemma CorrelatingAgreesExactly(s: Sys, a: Action)
    requires Sound(s) && Agreement(s) && Enabled(s, a) && Correlates(a)
    ensures Agreement(Next(s, a)) <==> InTime(s, a)
  {
    var x := CorrelationOf(s, a);
    NextSettles(s, a);
    SettledRowsAgree(s.core, x.core);
    RunsCorrelatable(s, a);
    if x.runs {
      SettleAgreesExactly(x.core, x.key, x.at, x.window, x.recovery);
    }
  }

  lemma TickAgrees(c: Core, now: Time)
    requires DeadlinesAgree(c) && LeasesAgree(c)
    ensures DeadlinesAgree(Tick(c, now)) && LeasesAgree(Tick(c, now))
  {
    SettledRowsAgree(c, Tick(c, now));
  }

  lemma GraceAgrees(c: Core, g: int)
    requires DeadlinesAgree(c) && LeasesAgree(c)
    ensures DeadlinesAgree(SetGrace(c, g)) && LeasesAgree(SetGrace(c, g))
    ensures ValidGrace(g) ==>
              (forall id | id in c.deadlines ::
                 id in SetGrace(c, g).leases
                 && SetGrace(c, g).leases[id] == Lease(c.revision + 1, c.deadlines[id] + g))
  {
  }

  lemma OtherAgrees(s: Sys, a: Action)
    requires Sound(s) && Agreement(s) && Enabled(s, a) && !Correlates(a)
    ensures Agreement(Next(s, a))
  {
    match a
    case TickAt(now) => TickAgrees(s.core, now);
    case FinishRecovery(now) => TickAgrees(s.core, now);
    case ReleaseFinalization(now) =>
      SettledRowsAgree(s.core, s.core.(defer := false));
      TickAgrees(s.core.(defer := false), now);
    case ChangeGrace(g) => GraceAgrees(s.core, g);
    case AddEvidence(_, _, _, _) =>
      EvidencePrefix(s.core.db, Program(s, a), |Program(s, a)|);
      SettledRowsAgree(s.core, Next(s, a).core);
    case PlaceEvidence(_, _) =>
      EvidencePrefix(s.core.db, Program(s, a), |Program(s, a)|);
      SettledRowsAgree(s.core, Next(s, a).core);
    case CloseFinalized(_, _) => SettledRowsAgree(s.core, Next(s, a).core);
    case StartUp =>
    case _ =>
  }

  /** A completed action keeps memory and database in agreement exactly when it joins in time. */
  lemma StepAgreesExactly(s: Sys, a: Action)
    requires Sound(s) && Agreement(s) && Enabled(s, a)
    ensures Agreement(Next(s, a)) <==> InTime(s, a)
  {
    if Correlates(a) {
      CorrelatingAgreesExactly(s, a);
    } else {
      OtherAgrees(s, a);
    }
  }

  // ----- whole runs ----------------------------------------------------------------------------------

  /** Every completed action of the run joins in time. */
  ghost predicate RunInTime(s: Sys, steps: seq<Step>)
    requires Behaves(s, steps)
    decreases |steps|
  {
    steps == [] || ((steps[0].Do? ==> InTime(s, steps[0].action)) && RunInTime(Take(s, steps[0]), steps[1..]))
  }

  /** Cache agreement over every run whose joins are in time, older rows, crashes and restarts included. */
  lemma {:induction false} DeadlineCacheTheorem(s: Sys, steps: seq<Step>)
    requires Sound(s) && Agreement(s) && Behaves(s, steps) && RunInTime(s, steps)
    ensures Agreement(After(s, steps))
    decreases |steps|
  {
    if steps != [] {
      if steps[0].Do? {
        StepAgreesExactly(s, steps[0].action);
      }
      SoundStep(s, steps[0]);
      DeadlineCacheTheorem(Take(s, steps[0]), steps[1..]);
    }
  }

  /** Every row has a persisted deadline, as rows of the current version do. */
  ghost predicate AllBounded(rows: seq<Episode>) {
    forall id | 0 <= id < |rows| :: rows[id].minimumEnd.Some?
  }

  lemma ApplyBounded(db: Db, c: Commit)
    requires AllBounded(db.episodes) && (c.CreateEpisode? ==> c.episode.minimumEnd.Some?)
    ensures AllBounded(Apply(db, c).episodes)
  {
  }

  lemma RunBounded(db: Db, p: seq<Commit>, n: nat)
    requires n <= |p| && AllBounded(db.episodes) && CreatesBounded(p)
    ensures AllBounded(RunTo(db, p, n).episodes)
  {
    if n != 0 {
      RunBounded(db, p, n - 1);
      assert p[n - 1] in p;
      ApplyBounded(RunTo(db, p, n - 1), p[n - 1]);
    }
  }

  ghost predicate CreatesBounded(p: seq<Commit>) {
    forall c | c in p && c.CreateEpisode? :: c.episode.minimumEnd.Some?
  }

  lemma SettleBounded(c: Core, k: Key, at: Time, window: int, recovery: bool)
    requires k in c.db.events
    ensures CreatesBounded(SettleProgram(c, k, at, window, recovery))
  {
  }

  lemma RecoverBounded(c: Core, k: Key, fallback: int)
    requires k in c.db.events
    ensures CreatesBounded(RecoverProgram(c, k, fallback))
  {
    if c.db.events[k].Pending() {
      var c' := AfterBackfill(c, k);
      var e := c'.db.events[k];
      SettleBounded(c', k, e.RecoveryIngress().value, RecoveryWindow(c', e, fallback), true);
    }
  }

  lemma ProgramBounded(s: Sys, a: Action)
    requires Enabled(s, a)
    ensures CreatesBounded(Program(s, a))
  {
    match a
    case SettleFlight(k) => SettleBounded(s.core, k, FlightOf(s, k).at, FlightOf(s, k).window, false);
    case RecoverOne(k, fallback) => RecoverBounded(s.core, k, fallback);
    case RedeliverKnown(d, fallback) =>
      if RedeliverRecovers(s.core.db, d) {
        RecoverBounded(AfterReceipt(s.core, d), d.key, fallback);
      }
      assert CreatesBounded(ReceiptProgram(s.core.db, d));
    case _ =>
  }

  lemma FreshIsInTime(s: Sys, a: Action)
    requires AllBounded(s.core.db.episodes) && Enabled(s, a) && Fresh(s)
    ensures InTime(s, a)
  {
  }

  /** Without older rows, and while no redelivery overtakes its delivery, every run is in time. */
  lemma {:induction false} CurrentRowsAreInTime(s: Sys, steps: seq<Step>)
    requires Sound(s) && Fresh(s) && AllBounded(s.core.db.episodes) && Behaves(s, steps) && NoOvertaking(s, steps)
    ensures RunInTime(s, steps)
    decreases |steps|
  {
    if steps != [] {
      var a := steps[0].action;
      ProgramBounded(s, a);
      RunBounded(s.core.db, Program(s, a), if steps[0].Do? then |Program(s, a)| else steps[0].committed);
      NextCommitsProgram(s, a);
      FreshIsInTime(s, a);
      FreshExactly(s, steps[0]);
      SoundStep(s, steps[0]);
      CurrentRowsAreInTime(Take(s, steps[0]), steps[1..]);
    }
  }

  /** An older row without a persisted deadline breaks the agreement when it is joined: it then gets
      the new Event's deadline even if that is earlier, while memory keeps the later one.  The two
      agree, and the effective deadline is not lowered, exactly when the new deadline reaches the
      row's fallback deadline. */
  lemma LegacyJoinAgreesExactly(c: Core, k: Key, at: Time, window: int, id: EpisodeId)
    requires k in c.db.events && c.db.events[k].Orphan() && Target(c, k, at, false) == Some(id)
    requires c.db.episodes[id].minimumEnd.None? && id in c.deadlines
    requires c.deadlines[id] == c.db.episodes[id].Deadline(c.timeout)
    ensures var c' := Settle(c, k, at, window, false);
            && id < |c'.db.episodes| && id in c'.deadlines && c'.db.episodes[id].minimumEnd == Some(at + window)
            && (c'.deadlines[id] == at + window <==> c.db.episodes[id].Deadline(c.timeout) <= at + window)
            && (c'.db.episodes[id].Deadline(c.timeout) < c.db.episodes[id].Deadline(c.timeout)
                <==> at + window < c.db.episodes[id].Deadline(c.timeout))
  {
    JoinPrefix(c.db, k, id, at, window, |JoinProgram(c.db, k, id, at, window)|);
  }

  /** Such a join: the row's fallback deadline is 30, the joining Event asks for 15. */
  lemma EarlyJoinDisagrees()
    ensures exists c: Core, k, at, window :: k in c.db.events && c.db.events[k].Orphan() && DeadlinesAgree(c) && LeasesAgree(c)
                                             && !DeadlinesAgree(Settle(c, k, at, window, false))
  {
    var decision := Decision(true, false, 5, Some(10), None);
    var e := Event("camera", "hall", 5, "motion", ActiveEvent, Some(decision), None, None, None);
    var row := Episode("hall", 0, Some(0), Some(0), None, None, Active, 1, 0);
    var c := Core(Db([row], map[0 := e], map[], 0), 30, 0, 0, map[0 := 30], map[], false);
    assert Candidate(c.db, 0, "hall", 5, 30, 0, false);
    assert Target(c, 0, 5, false) == Some(0);
    assert !JoinsInTime(c, 0, 15);
    SettleAgreesExactly(c, 0, 5, 10, false);
  }
}
