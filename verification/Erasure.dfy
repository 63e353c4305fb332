/** Observations that may not drive capture leave no trace on any Episode's life. */
module Erasure {
  import opened Domain
  import opened Store
  import opened Lifecycle
  import opened Protocol
  import opened Footprints
  import opened Invariants
  import opened Overtaking
  import opened CrashRecovery
  import opened SteadyRuns

  // ----- rows up to what attribution alone may change ------------------------------------------------

  /** Everything in a row except which observations it counts. */
  function LifeOf(e: Episode): Episode {
    e.(lastEvent := None, eventCount := 0)
  }

  ghost predicate SameLives(rows: seq<Episode>, rows': seq<Episode>) {
    |rows| == |rows'| && forall id | 0 <= id < |rows| :: LifeOf(rows[id]) == LifeOf(rows'[id])
  }

  ghost predicate AllDated(rows: seq<Episode>) {
    forall id | 0 <= id < |rows| :: rows[id].Dated()
  }

  lemma OpenEpisodeSame(db: Db, t: Db, n: nat, area: Area, at: Time, timeout: int, grace: int)
    requires SameLives(db.episodes, t.episodes) && AllDated(db.episodes) && n <= |db.episodes|
    ensures OpenEpisodeUpTo(db, n, area, at, timeout, grace, false)
            == OpenEpisodeUpTo(t, n, area, at, timeout, grace, false)
  {
    if n != 0 {
      OpenEpisodeSame(db, t, n - 1, area, at, timeout, grace);
      assert LifeOf(db.episodes[n - 1]) == LifeOf(t.episodes[n - 1]);
      var before := OpenEpisodeUpTo(db, n - 1, area, at, timeout, grace, false);
      assert before.Some? ==> LifeOf(db.episodes[before.value]) == LifeOf(t.episodes[before.value]);
    }
  }

  lemma SpanningSame(db: Db, t: Db, n: nat, area: Area, at: Time)
    requires SameLives(db.episodes, t.episodes) && n <= |db.episodes|
    ensures SpanningEpisodeUpTo(db, n, area, at) == SpanningEpisodeUpTo(t, n, area, at)
  {
    if n != 0 {
      SpanningSame(db, t, n - 1, area, at);
      assert LifeOf(db.episodes[n - 1]) == LifeOf(t.episodes[n - 1]);
      var before := SpanningEpisodeUpTo(db, n - 1, area, at);
      assert before.Some? ==> LifeOf(db.episodes[before.value]) == LifeOf(t.episodes[before.value]);
    }
  }

  ghost predicate SameRows(rows: seq<Episode>, rows': seq<Episode>) {
    SameLives(rows, rows') && AllDated(rows)
  }

  lemma RowUpdateSame(rows: seq<Episode>, rows': seq<Episode>, id: EpisodeId, r: Episode, r': Episode)
    requires SameRows(rows, rows') && id < |rows| && LifeOf(r) == LifeOf(r') && r.Dated()
    ensures SameRows(rows[id := r], rows'[id := r'])
  {
  }

  ghost predicate EventsWithout(events: map<Key, Event>, events': map<Key, Event>, gone: iset<Key>) {
    && (forall k | k in events :: k in gone || (k in events' && events'[k] == events[k]))
    && (forall k | k in events' :: k in events && k !in gone)
  }

  /** `t` is `db` without the Events in `gone` and without their counts. */
  ghost predicate Without(db: Db, t: Db, gone: iset<Key>) {
    && SameRows(db.episodes, t.episodes) && EventsWithout(db.events, t.events, gone)
    && t.evidence == db.evidence && t.grace == db.grace
  }

  predicate KeyOf(c: Commit, k: Key) {
    match c
    case InsertEvent(j, _) => j == k
    case LinkReceipt(j, _) => j == k
    case Backfill(j) => j == k
    case LinkEvent(j, _) => j == k
    case RecordAttachment(j, _) => j == k
    case _ => false
  }

  lemma TimeOutSame(db: Db, t: Db, now: Time, timeout: int, grace: int)
    requires SameRows(db.episodes, t.episodes)
    ensures SameRows(Apply(db, TimeOut(now, timeout, grace)).episodes, Apply(t, TimeOut(now, timeout, grace)).episodes)
  {
    forall id | 0 <= id < |db.episodes|
      ensures LifeOf(TimeOutRow(db.episodes[id], now, timeout, grace))
              == LifeOf(TimeOutRow(t.episodes[id], now, timeout, grace))
    {
      assert LifeOf(db.episodes[id]) == LifeOf(t.episodes[id]) && db.episodes[id].Dated();
    }
  }

  /** A transaction about no erased Event acts alike on both databases. */
  lemma ApplyWithout(db: Db, t: Db, gone: iset<Key>, c: Commit)
    requires Without(db, t, gone) && (forall k | KeyOf(c, k) :: k !in gone)
    requires c.CreateEpisode? ==> c.episode.Dated()
    ensures Without(Apply(db, c), Apply(t, c), gone)
  {
    if c.LinkEvent? {
      assert KeyOf(c, c.key);
      ApplyRowWithout(db, t, c);
      assert CanLinkEvent(db, c.key, c.id) == CanLinkEvent(t, c.key, c.id) by {
        assert c.id < |db.episodes| ==> LifeOf(db.episodes[c.id]) == LifeOf(t.episodes[c.id]);
      }
    } else if c.InsertEvent? || c.LinkReceipt? || c.Backfill? || c.RecordAttachment? {
      assert KeyOf(c, c.key);
    } else if c.CreateEvidence? {
    } else {
      ApplyRowWithout(db, t, c);
    }
  }

  lemma ApplyRowWithout(db: Db, t: Db, c: Commit)
    requires SameRows(db.episodes, t.episodes) && db.evidence == t.evidence && (c.CreateEpisode? ==> c.episode.Dated())
    requires c.LinkEvent? ==> (c.key in db.events <==> c.key in t.events)
                              && (c.key in db.events ==> db.events[c.key] == t.events[c.key])
    ensures SameRows(Apply(db, c).episodes, Apply(t, c).episodes)
    ensures c.LinkEvidence? ==> Apply(db, c).evidence == Apply(t, c).evidence
  {
    if c.TimeOut? {
      TimeOutSame(db, t, c.now, c.timeout, c.grace);
    } else if c.LinkEvent? || c.LinkEvidence? {
      LinkRowSame(db, t, c);
    } else if c.UpdateTimes? || c.ExtendMinimumEnd? || c.SetState? || c.MarkClosed? {
      RowChangeSame(db, t, c);
    }
  }

  lemma LinkRowSame(db: Db, t: Db, c: Commit)
    requires SameRows(db.episodes, t.episodes) && db.evidence == t.evidence && (c.LinkEvent? || c.LinkEvidence?)
    requires c.LinkEvent? ==> (c.key in db.events <==> c.key in t.events)
                              && (c.key in db.events ==> db.events[c.key] == t.events[c.key])
    ensures SameRows(Apply(db, c).episodes, Apply(t, c).episodes)
    ensures c.LinkEvidence? ==> Apply(db, c).evidence == Apply(t, c).evidence
  {
    if c.id < |db.episodes| {
      var r, r' := db.episodes[c.id], t.episodes[c.id];
      assert LifeOf(r) == LifeOf(r') && r.Dated();
      if c.LinkEvent? {
        RowUpdateSame(db.episodes, t.episodes, c.id, CountedRow(r), CountedRow(r'));
      } else {
        RowUpdateSame(db.episodes, t.episodes, c.id, r.(evidenceCount := r.evidenceCount + 1),
                      r'.(evidenceCount := r'.evidenceCount + 1));
      }
    }
  }

  lemma RowChangeSame(db: Db, t: Db, c: Commit)
    requires SameRows(db.episodes, t.episodes)
    requires c.UpdateTimes? || c.ExtendMinimumEnd? || c.SetState? || c.MarkClosed?
    ensures SameRows(Apply(db, c).episodes, Apply(t, c).episodes)
  {
    if c.id < |db.episodes| {
      assert LifeOf(db.episodes[c.id]) == LifeOf(t.episodes[c.id]) && db.episodes[c.id].Dated();
      if Apply(db, c).episodes != db.episodes || Apply(t, c).episodes != t.episodes {
        RowUpdateSame(db.episodes, t.episodes, c.id, Apply(db, c).episodes[c.id], Apply(t, c).episodes[c.id]);
      }
    }
  }

  lemma RunWithout(db: Db, t: Db, gone: iset<Key>, p: seq<Commit>, n: nat)
    requires Without(db, t, gone) && n <= |p|
    requires forall c, k | c in p && KeyOf(c, k) :: k !in gone
    requires forall c | c in p && c.CreateEpisode? :: c.episode.Dated()
    ensures Without(RunTo(db, p, n), RunTo(t, p, n), gone)
  {
    if n != 0 {
      RunWithout(db, t, gone, p, n - 1);
      assert p[n - 1] in p;
      ApplyWithout(RunTo(db, p, n - 1), RunTo(t, p, n - 1), gone, p[n - 1]);
    }
  }

  // ----- erasing the Events that may not drive -----------------------------------------------------------

  /** The same engine memory over databases that differ by the erased Events. */
  ghost predicate ErasedSys(s: Sys, t: Sys, gone: iset<Key>) {
    && Without(s.core.db, t.core.db, gone)
    && t.core == s.core.(db := t.core.db) && t.phase == s.phase
    && (forall a | a in s.flights :: s.flights[a].key in gone || (a in t.flights && t.flights[a] == s.flights[a]))
    && (forall a | a in t.flights :: a in s.flights && s.flights[a].key !in gone)
    && (forall k | k in s.core.db.events :: k !in gone <==> s.core.db.events[k].Drives())
  }

  predicate ActsOn(a: Action, k: Key) {
    match a
    case Begin(d) => d.key == k
    case LinkFlight(j) => j == k
    case SettleFlight(j) => j == k
    case RedeliverKnown(d, _) => d.key == k
    case _ => false
  }

  ghost predicate About(a: Action, gone: iset<Key>) {
    exists k :: ActsOn(a, k) && k in gone
  }

  /** The run with every delivery of an erased Event removed. */
  ghost function Erase(steps: seq<Step>, gone: iset<Key>): seq<Step> {
    if steps == [] then []
    else if About(steps[0].action, gone) then Erase(steps[1..], gone)
    else [steps[0]] + Erase(steps[1..], gone)
  }

  /** `gone` is exactly the Events whose first delivery was not allowed to drive capture. */
  ghost predicate NonDriving(steps: seq<Step>, gone: iset<Key>) {
    forall step | step in steps && step.action.Begin? ::
      step.action.d.key in gone <==> !step.action.d.NewEvent().Drives()
  }

  /** Changing an erased Event and what one row counts goes unseen. */
  lemma OutsideUpdate(db: Db, t: Db, gone: iset<Key>, k: Key, e: Event, id: EpisodeId, r: Episode)
    requires Without(db, t, gone) && k in gone && k in db.events && id < |db.episodes|
    requires LifeOf(r) == LifeOf(db.episodes[id]) && r.Dated()
    ensures Without(db.(events := db.events[k := e], episodes := db.episodes[id := r]), t, gone)
    ensures Without(db.(events := db.events[k := e]), t, gone)
  {
    RowUpdateSame(db.episodes, t.episodes, id, r, t.episodes[id]);
    assert t.episodes[id := t.episodes[id]] == t.episodes;
  }

  lemma InactiveOutside(db: Db, k: Key, t: Db, gone: iset<Key>)
    requires k in db.events && db.events[k].episode.None? && db.events[k].state.InactiveEvent? && k in gone
    requires Without(db, t, gone)
    ensures var db' := Run(db, InactiveProgram(db, k));
            Without(db', t, gone) && k in db'.events && !db'.events[k].Drives()
  {
    InactivePrefix(db, k, |InactiveProgram(db, k)|);
    var target := InactiveTarget(db, k);
    if target.Some? {
      var e := db.events[k];
      OutsideUpdate(db, t, gone, k, e.(episode := target), target.value,
                    CountedRow(WithTimes(db.episodes[target.value], e.timestamp, None)));
    }
  }

  lemma AttachOutside(c: Core, k: Key, at: Time, recovery: bool, t: Db, gone: iset<Key>)
    requires k in c.db.events && !c.db.events[k].Drives() && k in gone
    requires Without(c.db, t, gone)
    ensures var db' := Run(c.db, AttachProgram(c, k, at, recovery));
            Without(db', t, gone) && k in db'.events && !db'.events[k].Drives()
  {
    var e := c.db.events[k];
    var target := FindOpenEpisode(c.db, e.area, at, c.timeout, c.grace, recovery);
    if e.episode.Some? {
      HeldAttachPrefix(c, k, at, recovery, |AttachProgram(c, k, at, recovery)|);
    } else {
      AttachPrefix(c, k, at, recovery, |AttachProgram(c, k, at, recovery)|);
    }
    if target.Some? && e.episode.None? {
      OutsideUpdate(c.db, t, gone, k, AttachedEvent(e.(episode := target), Attached), target.value,
                    CountedRow(c.db.episodes[target.value]));
    }
  }

  /** Correlating an Event that may not drive changes no Episode's life and no memory. */
  lemma SettleOutside(c: Core, k: Key, at: Time, window: int, recovery: bool, t: Db, gone: iset<Key>)
    requires k in c.db.events && Correlatable(c.db.events[k]) && !c.db.events[k].Drives() && k in gone
    requires Without(c.db, t, gone)
    ensures var c' := Settle(c, k, at, window, recovery);
            && c' == c.(db := c'.db) && Without(c'.db, t, gone) && c'.db.events.Keys == c.db.events.Keys
            && !c'.db.events[k].Drives()
            && forall j | j in c.db.events && j != k :: c'.db.events[j] == c.db.events[j]
  {
    SettleTouchesOnly(c, k, at, window, recovery, |SettleProgram(c, k, at, window, recovery)|);
    var e := c.db.events[k];
    if e.area == NO_AREA {
    } else if e.state.InactiveEvent? {
      InactiveOutside(c.db, k, t, gone);
    } else if e.decision.Some? && e.decision.value.classFiltered {
      AttachOutside(c, k, at, recovery, t, gone);
    }
  }

  lemma ErasedSettle(s: Sys, t: Sys, k: Key, gone: iset<Key>)
    requires Sound(s) && ErasedSys(s, t, gone) && Enabled(s, SettleFlight(k)) && k in gone
    ensures ErasedSys(Next(s, SettleFlight(k)), t, gone)
  {
    SettleOutside(s.core, k, FlightOf(s, k).at, FlightOf(s, k).window, false, t.core.db, gone);
  }

  lemma ErasedRedelivery(s: Sys, t: Sys, a: Action, gone: iset<Key>)
    requires OrphansHeld(s) && ErasedSys(s, t, gone) && Enabled(s, a) && a.RedeliverKnown? && a.d.key in gone
    ensures ErasedSys(Next(s, a), t, gone)
  {
    var x := CorrelationOf(s, a);
    ResumesOnlyFiltered(s, a);
    ErasedReceipts(s, t, a, gone);
    if x.runs {
      SettleOutside(x.core, x.key, x.at, x.window, true, t.core.db, gone);
    }
  }

  /** The Receipts a redelivery of an erased Event links go unseen. */
  lemma ErasedReceipts(s: Sys, t: Sys, a: Action, gone: iset<Key>)
    requires ErasedSys(s, t, gone) && Enabled(s, a) && a.RedeliverKnown? && a.d.key in gone
    ensures ErasedSys(s.(core := CorrelationOf(s, a).core), t, gone)
  {
    ReceiptsOnOne(s, a);
    OneReceiptUnseen(s, t, CorrelationOf(s, a).core, a.d.key, gone);
  }

  lemma ReceiptsOnOne(s: Sys, a: Action)
    requires Enabled(s, a) && a.RedeliverKnown?
    ensures forall j | j in s.core.db.events && j != a.d.key ::
              CorrelationOf(s, a).core.db.events[j] == s.core.db.events[j]
  {
    RedeliverOthers(s.core, a.d);
  }

  lemma OneReceiptUnseen(s: Sys, t: Sys, c: Core, k: Key, gone: iset<Key>)
    requires ErasedSys(s, t, gone) && ReceiptsOnly(s.core.db, c.db) && c == s.core.(db := c.db) && k in gone
    requires forall j | j in s.core.db.events && j != k :: c.db.events[j] == s.core.db.events[j]
    ensures ErasedSys(s.(core := c), t, gone)
  {
  }

  lemma ErasedBegin(s: Sys, t: Sys, d: Delivery, gone: iset<Key>)
    requires ErasedSys(s, t, gone) && Enabled(s, Begin(d)) && d.key in gone && !d.NewEvent().Drives()
    ensures ErasedSys(Next(s, Begin(d)), t, gone)
  {
  }

  lemma ErasedLink(s: Sys, t: Sys, k: Key, gone: iset<Key>)
    requires ErasedSys(s, t, gone) && Enabled(s, LinkFlight(k)) && k in gone
    ensures ErasedSys(Next(s, LinkFlight(k)), t, gone)
  {
  }

  lemma ErasedAction(s: Sys, t: Sys, a: Action, gone: iset<Key>)
    requires Sound(s) && OrphansHeld(s) && ErasedSys(s, t, gone) && Enabled(s, a) && About(a, gone)
    requires a.Begin? ==> (a.d.key in gone <==> !a.d.NewEvent().Drives())
    ensures ErasedSys(Next(s, a), t, gone)
  {
    match a
    case Begin(d) => ErasedBegin(s, t, d, gone);
    case LinkFlight(k) => ErasedLink(s, t, k, gone);
    case SettleFlight(k) => ErasedSettle(s, t, k, gone);
    case RedeliverKnown(d, _) => ErasedRedelivery(s, t, a, gone);
    case _ =>
  }

  lemma TargetSame(c: Core, t: Core, k: Key, at: Time, gone: iset<Key>)
    requires Without(c.db, t.db, gone) && t == c.(db := t.db) && k in c.db.events && k !in gone
    ensures k in t.db.events && Target(c, k, at, false) == Target(t, k, at, false)
  {
    OpenEpisodeSame(c.db, t.db, |c.db.episodes|, c.db.events[k].area, at, c.timeout, c.grace);
  }

  lemma DriveProgramSame(c: Core, t: Core, k: Key, at: Time, window: int, gone: iset<Key>)
    requires Without(c.db, t.db, gone) && t == c.(db := t.db) && k in c.db.events && k !in gone
    ensures k in t.db.events && DriveProgram(c, k, at, window, false) == DriveProgram(t, k, at, window, false)
    ensures forall commit | commit in DriveProgram(c, k, at, window, false) && commit.CreateEpisode? :: commit.episode.Dated()
  {
    TargetSame(c, t, k, at, gone);
    var target := Target(c, k, at, false);
    if target.Some? {
      assert LifeOf(c.db.episodes[target.value]) == LifeOf(t.db.episodes[target.value]);
    }
  }

  lemma MemorySame(c: Core, t: Core, target: Option<EpisodeId>, end: Time)
    requires SameLives(c.db.episodes, t.db.episodes) && t == c.(db := t.db)
    requires target.Some? ==> target.value < |c.db.episodes|
    ensures RememberAndPublish(t, target, end) == RememberAndPublish(c, target, end).(db := t.db)
  {
    assert target.Some? ==> LifeOf(c.db.episodes[target.value]) == LifeOf(t.db.episodes[target.value]);
  }

  lemma DriveSame(c: Core, t: Core, k: Key, at: Time, window: int, gone: iset<Key>)
    requires Without(c.db, t.db, gone) && t == c.(db := t.db)
    requires k in c.db.events && k !in gone && c.db.events[k].Drives() && c.db.events[k].episode.None?
    ensures k in t.db.events
    ensures var c', t' := Settle(c, k, at, window, false), Settle(t, k, at, window, false);
            t' == c'.(db := t'.db) && Without(c'.db, t'.db, gone)
  {
    if c.db.events[k].area != NO_AREA {
      DriveRunSame(c, t, k, at, window, gone);
      TargetSame(c, t, k, at, gone);
      MemorySame(c, t, Target(c, k, at, false), at + window);
      DriveIsSettled(c, k, at, window);
      DriveIsSettled(t, k, at, window);
    }
  }

  lemma DriveRunSame(c: Core, t: Core, k: Key, at: Time, window: int, gone: iset<Key>)
    requires Without(c.db, t.db, gone) && t == c.(db := t.db) && k in c.db.events && k !in gone
    ensures k in t.db.events
    ensures Without(Run(c.db, DriveProgram(c, k, at, window, false)), Run(t.db, DriveProgram(t, k, at, window, false)), gone)
  {
    var p := DriveProgram(c, k, at, window, false);
    DriveProgramSame(c, t, k, at, window, gone);
    RunWithout(c.db, t.db, gone, p, |p|);
  }

  /** Settling a driving Event runs its program and remembers the deadline. */
  lemma DriveIsSettled(c: Core, k: Key, at: Time, window: int)
    requires k in c.db.events && c.db.events[k].Drives() && c.db.events[k].area != NO_AREA && c.db.events[k].episode.None?
    ensures var db := Run(c.db, DriveProgram(c, k, at, window, false));
            Settle(c, k, at, window, false)
            == RememberAndPublish(c, Target(c, k, at, false), at + window).(db := db)
  {
    assert SettleProgram(c, k, at, window, false) == DriveProgram(c, k, at, window, false);
  }

  lemma KeptSettle(s: Sys, t: Sys, k: Key, gone: iset<Key>)
    requires Sound(s) && Fresh(s) && ErasedSys(s, t, gone) && Enabled(s, SettleFlight(k)) && k !in gone
    ensures Enabled(t, SettleFlight(k)) && ErasedSys(Next(s, SettleFlight(k)), Next(t, SettleFlight(k)), gone)
  {
    var f := FlightOf(s, k);
    assert FlightOf(t, k) == f;
    DriveSame(s.core, t.core, k, f.at, f.window, gone);
    SettleTouchesOnly(s.core, k, f.at, f.window, false, |SettleProgram(s.core, k, f.at, f.window, false)|);
    SettleKeepsDriving(s.core, k, f.at, f.window);
  }

  lemma SettleKeepsDriving(c: Core, k: Key, at: Time, window: int)
    requires k in c.db.events && c.db.events[k].episode.None? && c.db.events[k].Drives()
    ensures var db' := Settle(c, k, at, window, false).db; k in db'.events && db'.events[k].Drives()
  {
    if c.db.events[k].area != NO_AREA {
      var target := Target(c, k, at, false);
      if target.Some? {
        JoinPrefix(c.db, k, target.value, at, window, |JoinProgram(c.db, k, target.value, at, window)|);
      } else {
        CreatePrefix(c.db, k, at, window, 4);
      }
    }
  }

  lemma ReceiptKeys(db: Db, d: Delivery, c: Commit, k: Key)
    requires d.key in db.events && c in ReceiptProgram(db, d) && KeyOf(c, k)
    ensures k == d.key
  {
  }

  lemma KeptReceipts(c: Core, t: Core, d: Delivery, gone: iset<Key>)
    requires Without(c.db, t.db, gone) && t == c.(db := t.db) && d.key in c.db.events && d.key !in gone
    ensures d.key in t.db.events
    ensures var c', t' := AfterReceipt(c, d), AfterReceipt(t, d);
            t' == c'.(db := t'.db) && Without(c'.db, t'.db, gone)
  {
    var p := ReceiptProgram(c.db, d);
    assert p == ReceiptProgram(t.db, d);
    forall commit, k | commit in p && KeyOf(commit, k) ensures k !in gone {
      ReceiptKeys(c.db, d, commit, k);
    }
    RunWithout(c.db, t.db, gone, p, |p|);
  }

  lemma KeptRedelivery(s: Sys, t: Sys, a: Action, gone: iset<Key>)
    requires OrphansHeld(s) && ErasedSys(s, t, gone) && Enabled(s, a) && a.RedeliverKnown? && a.d.key !in gone
    requires !Overtakes(s, a)
    ensures Enabled(t, a) && ErasedSys(Next(s, a), Next(t, a), gone)
  {
    assert a.d.area !in t.flights;
    RedeliveryInertExactly(s, a);
    RedeliveryInertExactly(t, a);
    KeptReceiptsSys(s, t, a.d, gone);
  }

  lemma KeptReceiptsSys(s: Sys, t: Sys, d: Delivery, gone: iset<Key>)
    requires ErasedSys(s, t, gone) && d.key in s.core.db.events && d.key !in gone
    ensures d.key in t.core.db.events
    ensures ErasedSys(s.(core := AfterReceipt(s.core, d)), t.(core := AfterReceipt(t.core, d)), gone)
  {
    KeptReceipts(s.core, t.core, d, gone);
  }

  lemma EvidenceMatchSame(c: Core, t: Core, v: Evidence, now: Time, gone: iset<Key>)
    requires Without(c.db, t.db, gone) && t == c.(db := t.db)
    ensures EvidenceMatch(c, v, now) == EvidenceMatch(t, v, now)
  {
    SpanningSame(c.db, t.db, |c.db.episodes|, v.area, v.timestamp);
    OpenEpisodeSame(c.db, t.db, |c.db.episodes|, v.area, now, c.timeout, c.grace);
  }

  lemma KeptEvidence(s: Sys, t: Sys, a: Action, gone: iset<Key>)
    requires ErasedSys(s, t, gone) && Enabled(s, a) && (a.AddEvidence? || a.PlaceEvidence?)
    ensures Enabled(t, a) && ErasedSys(Next(s, a), Next(t, a), gone)
  {
    var p := Program(s, a);
    EvidenceProgramsSame(s.core, t.core, a, gone);
    EvidencePrefix(s.core.db, p, |p|);
    RunWithout(s.core.db, t.core.db, gone, p, |p|);
  }

  lemma EvidenceProgramsSame(c: Core, t: Core, a: Action, gone: iset<Key>)
    requires Without(c.db, t.db, gone) && t == c.(db := t.db)
    ensures a.AddEvidence? ==> EvidenceProgram(c, a.evidenceId, a.evidence, a.recorder, a.now)
                               == EvidenceProgram(t, a.evidenceId, a.evidence, a.recorder, a.now)
    ensures a.PlaceEvidence? ==> OrphanEvidenceProgram(c, a.evidenceId, a.now) == OrphanEvidenceProgram(t, a.evidenceId, a.now)
  {
    if a.AddEvidence? {
      EvidenceMatchSame(c, t, a.evidence.(episode := None), a.now, gone);
      if a.evidence.episode.Some? && a.evidence.episode.value < |c.db.episodes| {
        assert LifeOf(c.db.episodes[a.evidence.episode.value]) == LifeOf(t.db.episodes[a.evidence.episode.value]);
      }
    } else if a.PlaceEvidence? && a.evidenceId in c.db.evidence {
      EvidenceMatchSame(c, t, c.db.evidence[a.evidenceId], a.now, gone);
    }
  }

  lemma AwaitingSame(rows: seq<Episode>, rows': seq<Episode>)
    requires SameLives(rows, rows')
    ensures AwaitingClose(rows) == AwaitingClose(rows')
  {
    assert forall id | 0 <= id < |rows| :: LifeOf(rows[id]).state == LifeOf(rows'[id]).state;
  }

  lemma KeptTick(c: Core, t: Core, now: Time, gone: iset<Key>)
    requires Without(c.db, t.db, gone) && t == c.(db := t.db)
    ensures var c', t' := Tick(c, now), Tick(t, now);
            t' == c'.(db := t'.db) && Without(c'.db, t'.db, gone) && c'.db.events == c.db.events
  {
    ApplyWithout(c.db, t.db, gone, TimeOut(now, c.timeout, c.grace));
    AwaitingSame(Tick(c, now).db.episodes, Tick(t, now).db.episodes);
  }

  lemma KeptBegin(s: Sys, t: Sys, d: Delivery, gone: iset<Key>)
    requires ErasedSys(s, t, gone) && Enabled(s, Begin(d)) && d.key !in gone && d.NewEvent().Drives()
    ensures Enabled(t, Begin(d)) && ErasedSys(Next(s, Begin(d)), Next(t, Begin(d)), gone)
  {
  }

  lemma KeptLink(s: Sys, t: Sys, k: Key, gone: iset<Key>)
    requires ErasedSys(s, t, gone) && Enabled(s, LinkFlight(k)) && k !in gone
    ensures Enabled(t, LinkFlight(k)) && ErasedSys(Next(s, LinkFlight(k)), Next(t, LinkFlight(k)), gone)
  {
  }

  lemma KeptOther(s: Sys, t: Sys, a: Action, gone: iset<Key>)
    requires ErasedSys(s, t, gone) && Enabled(s, a)
    requires a.Idle? || a.TickAt? || a.CloseFinalized? || a.ChangeGrace? || a.ReleaseFinalization?
    ensures Enabled(t, a) && ErasedSys(Next(s, a), Next(t, a), gone)
  {
    match a
    case TickAt(now) => KeptTick(s.core, t.core, now, gone);
    case ReleaseFinalization(now) => KeptTick(s.core.(defer := false), t.core.(defer := false), now, gone);
    case CloseFinalized(id, at) => KeptClose(s, t, a, gone);
    case _ =>
  }

  lemma KeptClose(s: Sys, t: Sys, a: Action, gone: iset<Key>)
    requires ErasedSys(s, t, gone) && Enabled(s, a) && a.CloseFinalized?
    ensures Enabled(t, a) && ErasedSys(Next(s, a), Next(t, a), gone)
  {
    assert LifeOf(s.core.db.episodes[a.id]) == LifeOf(t.core.db.episodes[a.id]);
    ApplyWithout(s.core.db, t.core.db, gone, MarkClosed(a.id, a.at));
  }

  lemma KeptAction(s: Sys, t: Sys, a: Action, gone: iset<Key>)
    requires Sound(s) && OrphansHeld(s) && Fresh(s) && ErasedSys(s, t, gone) && Enabled(s, a) && !About(a, gone)
    requires Live(Do(a)) && !Overtakes(s, a)
    requires a.Begin? ==> (a.d.key in gone <==> !a.d.NewEvent().Drives())
    ensures Enabled(t, a) && ErasedSys(Next(s, a), Next(t, a), gone)
  {
    match a
    case Begin(d) =>
      assert ActsOn(a, d.key);
      KeptBegin(s, t, d, gone);
    case LinkFlight(k) =>
      assert ActsOn(a, k);
      KeptLink(s, t, k, gone);
    case SettleFlight(k) =>
      assert ActsOn(a, k);
      KeptSettle(s, t, k, gone);
    case RedeliverKnown(d, _) =>
      assert ActsOn(a, d.key);
      KeptRedelivery(s, t, a, gone);
    case AddEvidence(_, _, _, _) => KeptEvidence(s, t, a, gone);
    case PlaceEvidence(_, _) => KeptEvidence(s, t, a, gone);
    case _ => KeptOther(s, t, a, gone);
  }

  /** The erasure theorem: removing every delivery of every Event that may not drive capture from a crash-free
      run in which no redelivery overtakes its first delivery leaves a run that gives every Episode the same life
      (its existence, Area, start, last activity, deadline, end, state and Evidence), the same remembered
      deadlines and the same published leases.  It holds of every run, so of every prefix of one. */
  lemma {:induction false} ErasureTheorem(s: Sys, t: Sys, steps: seq<Step>, gone: iset<Key>)
    requires Steady(s) && Fresh(s) && ErasedSys(s, t, gone)
    requires Behaves(s, steps) && LiveRun(steps) && NonDriving(steps, gone) && NoOvertaking(s, steps)
    ensures Behaves(t, Erase(steps, gone))
    ensures var s', t' := After(s, steps), After(t, Erase(steps, gone));
            && SameLives(s'.core.db.episodes, t'.core.db.episodes)
            && t'.core.deadlines == s'.core.deadlines && t'.core.leases == s'.core.leases
    decreases |steps|
  {
    if steps != [] {
      assert steps[0] in steps;
      var a := steps[0].action;
      var s' := Next(s, a);
      SteadyStep(s, steps[0]);
      FreshExactly(s, steps[0]);
      if About(a, gone) {
        ErasedAction(s, t, a, gone);
        ErasureTheorem(s', t, steps[1..], gone);
      } else {
        KeptAction(s, t, a, gone);
        ErasureTheorem(s', Next(t, a), steps[1..], gone);
        assert Erase(steps, gone)[1..] == Erase(steps[1..], gone);
      }
    }
  }

  /** From a fresh start, the erased run is simply the same run without those deliveries. */
  lemma ErasureFromStart(s: Sys, steps: seq<Step>, gone: iset<Key>)
    requires Steady(s)
    requires s.core.db.events == map[] && AllDated(s.core.db.episodes)
    requires Behaves(s, steps) && LiveRun(steps) && NonDriving(steps, gone) && NoOvertaking(s, steps)
    ensures Behaves(s, Erase(steps, gone))
    ensures SameLives(After(s, steps).core.db.episodes, After(s, Erase(steps, gone)).core.db.episodes)
  {
    ErasureTheorem(s, s, steps, gone);
  }

  /** Why rows must record their last activity: an inactive Event moves the deadline of the row it is attributed
      to exactly when that row has neither a persisted deadline nor a last activity, and the Event's timestamp
      changes what stands in for it. */
  lemma InactiveMovesDeadlineExactly(c: Core, k: Key, at: Time, window: int, id: EpisodeId)
    requires k in c.db.events && c.db.events[k].episode.None? && c.db.events[k].area != NO_AREA
    requires c.db.events[k].state.InactiveEvent? && InactiveTarget(c.db, k) == Some(id)
    ensures var r, rows := c.db.episodes[id], Settle(c, k, at, window, false).db.episodes;
            id < |rows| &&
            (rows[id].Deadline(c.timeout) != r.Deadline(c.timeout) <==>
             r.minimumEnd.None? && !r.Dated()
             && if r.lastEvent.Some? then r.lastEvent.value < c.db.events[k].timestamp else r.start != c.db.events[k].timestamp)
  {
    InactivePrefix(c.db, k, |InactiveProgram(c.db, k)|);
  }
}
