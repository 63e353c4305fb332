/** What an overtaken delivery can do: two crash-free runs from an empty engine.  One observation is delivered
    before and again after its Device has moved to another Area, and the second delivery correlates first. */
module OvertakenRun {
  import opened Domain
  import opened Store
  import opened Lifecycle
  import opened Protocol
  import opened Footprints
  import opened Invariants
  import opened Overtaking
  import opened CrashRecovery
  import opened SteadyRuns
  import ExactlyOnce

  const FIRST := Delivery(0, "camera", "porch", 0, "motion", ActiveEvent, Some(Decision(true, false, 5, Some(10), None)),
                          None, false, 0, 10)
  const MOVED := FIRST.(area := "garden")

  function Seen(episode: Option<EpisodeId>): Event {
    FIRST.NewEvent().(episode := episode)
  }

  /** The Episode's row, by its last activity and its deadline. */
  function Row(activity: Time, end: Time, state: EpisodeState): Episode {
    Episode("porch", 0, Some(0), Some(activity), Some(end), None, state, 1, 0)
  }

  function Engine(rows: seq<Episode>, events: map<Key, Event>, deadlines: map<EpisodeId, Time>): Core {
    Core(Db(rows, events, map[], 10), 60, 10, 0, deadlines, map id | id in deadlines :: Lease(0, deadlines[id] + 10), false)
  }

  const HELD := map["porch" := Flight(0, 0, 10, None)]

  function Start(): Sys {
    Sys(Engine([], map[], map[]), Running, map[])
  }

  function Begun(): Sys {
    Sys(Engine([], map[0 := Seen(None)], map[]), Running, HELD)
  }

  /** The redelivery has recovered the Event from the time its decision was made. */
  function Overtaken(): Sys {
    Sys(Engine([Row(5, 15, Active)], map[0 := Seen(Some(0))], map[0 := 15]), Running, HELD)
  }

  lemma OneMore(s: Sys, a: Action, t: Sys, rest: seq<Step>)
    requires Enabled(s, a) && Next(s, a) == t && Behaves(t, rest)
    ensures Behaves(s, [Do(a)] + rest) && After(s, [Do(a)] + rest) == After(t, rest)
  {
    AfterCons(s, Do(a), rest);
  }

  lemma LastStep(s: Sys, a: Action)
    requires Enabled(s, a)
    ensures Behaves(s, [Do(a)]) && After(s, [Do(a)]) == Next(s, a)
  {
  }

  lemma Begins()
    ensures Steady(Start()) && Fresh(Start())
    ensures Enabled(Start(), Begin(FIRST)) && Next(Start(), Begin(FIRST)) == Begun()
  {
    assert Members(map[], 0) == {};
  }

  lemma Overtakes1()
    ensures Enabled(Begun(), RedeliverKnown(MOVED, 1)) && Overtakes(Begun(), RedeliverKnown(MOVED, 1))
    ensures Next(Begun(), RedeliverKnown(MOVED, 1)) == Overtaken()
  {
    var x := CorrelationOf(Begun(), RedeliverKnown(MOVED, 1));
    assert AfterReceipt(Begun().core, MOVED) == Begun().core;
    assert x.core == Begun().core && x.at == 5 && x.window == 10;
    NextSettles(Begun(), RedeliverKnown(MOVED, 1));
    RecoversAsNew();
  }

  lemma RecoversAsNew()
    ensures Settle(Begun().core, 0, 5, 10, true) == Overtaken().core
  {
    var c := Begun().core;
    CreatePrefix(c.db, 0, 5, 10, 4);
    assert Target(c, 0, 5, true).None?;
    assert Run(c.db, CreateProgram(c.db, 0, 5, 10)) == Overtaken().core.db;
  }

  // ----- the first delivery extends what it should have opened --------------------------------------------

  lemma SettlesAlone()
    ensures Enabled(Begun(), SettleFlight(0))
    ensures Next(Begun(), SettleFlight(0)).core.db.episodes == [Row(0, 10, Active)]
  {
    CreatePrefix(Begun().core.db, 0, 0, 10, 4);
    assert Target(Begun().core, 0, 0, false).None?;
  }

  lemma SettlesAfterwards()
    ensures Enabled(Overtaken(), SettleFlight(0))
    ensures Next(Overtaken(), SettleFlight(0)).core.db.episodes == [Row(0, 15, Active)]
  {
    var c := Overtaken().core;
    assert Candidate(c.db, 0, "porch", 0, 60, 10, false);
    assert Target(c, 0, 0, false) == Some(0);
    RejoinPrefix(c.db, 0, 0, 0, 10, 3);
  }

  const RUN := [Do(Begin(FIRST))] + ([Do(RedeliverKnown(MOVED, 1))] + [Do(SettleFlight(0))])
  const ALONE := [Do(Begin(FIRST))] + [Do(SettleFlight(0))]

  lemma BothRun()
    ensures Behaves(Start(), RUN) && After(Start(), RUN) == Next(Overtaken(), SettleFlight(0))
    ensures Behaves(Start(), ALONE) && After(Start(), ALONE) == Next(Begun(), SettleFlight(0))
  {
    Begins();
    Overtakes1();
    LastStep(Overtaken(), SettleFlight(0));
    OneMore(Begun(), RedeliverKnown(MOVED, 1), Overtaken(), [Do(SettleFlight(0))]);
    OneMore(Start(), Begin(FIRST), Begun(), [Do(RedeliverKnown(MOVED, 1))] + [Do(SettleFlight(0))]);
    LastStep(Begun(), SettleFlight(0));
    OneMore(Start(), Begin(FIRST), Begun(), [Do(SettleFlight(0))]);
  }

  lemma FirstAlone()
    ensures ExactlyOnce.FirstDeliveries(RUN) == ALONE
  {
    assert RUN[1..] == [RUN[1], RUN[2]] && RUN[1..][1..] == [RUN[2]];
    assert ExactlyOnce.FirstDeliveries([RUN[2]]) == [RUN[2]];
  }

  /** Without the redelivery the Episode ends at 10, with it at 15: the redelivery has had an effect. */
  lemma OvertakenDeliveryExtends()
    ensures Steady(Start()) && LiveRun(RUN) && Behaves(Start(), RUN) && ExactlyOnce.FirstDeliveries(RUN) == ALONE
    ensures Behaves(Start(), ALONE)
    ensures After(Start(), RUN).core.db.episodes == [Row(0, 15, Active)]
    ensures After(Start(), ALONE).core.db.episodes == [Row(0, 10, Active)]
    ensures !ExactlyOnce.SameButReceipts(After(Start(), RUN), After(Start(), ALONE))
  {
    Begins();
    BothRun();
    FirstAlone();
    SettlesAlone();
    SettlesAfterwards();
  }

  // ----- an empty Episode without a crash -------------------------------------------------------------------

  /** A timer pass has sealed the Episode meanwhile. */
  function Sealed(): Sys {
    Overtaken().(core := Engine([Row(5, 15, Finalizing)], map[0 := Seen(Some(0))], map[0 := 15]).(deadlines := map[]))
  }

  lemma Seals()
    ensures Enabled(Overtaken(), TickAt(100)) && Next(Overtaken(), TickAt(100)) == Sealed()
  {
    assert Apply(Overtaken().core.db, TimeOut(100, 60, 10)).episodes == [Row(5, 15, Finalizing)];
    assert AwaitingClose([Row(5, 15, Finalizing)]) == {0};
    assert Tick(Overtaken().core, 100).deadlines == map[];
  }

  lemma OpensInVain()
    ensures Enabled(Sealed(), SettleFlight(0))
    ensures Next(Sealed(), SettleFlight(0)).core.db.episodes == [Row(5, 15, Finalizing), Row(0, 10, Active).(eventCount := 0)]
    ensures Shell(Next(Sealed(), SettleFlight(0)).core.db, 1) && 1 !in Next(Sealed(), SettleFlight(0)).core.deadlines
    ensures Next(Sealed(), SettleFlight(0)).phase.Running?
  {
    var c := Sealed().core;
    assert !Candidate(c.db, 0, "porch", 0, 60, 10, false);
    assert Target(c, 0, 0, false).None?;
    HeldDrivePrefix(c, 0, 0, 10, false, 1);
    assert SettleProgram(c, 0, 0, 10, false) == DriveProgram(c, 0, 0, 10, false);
  }

  const VAIN := [Do(Begin(FIRST))] + ([Do(RedeliverKnown(MOVED, 1))] + ([Do(TickAt(100))] + [Do(SettleFlight(0))]))

  lemma VainRuns()
    ensures Behaves(Start(), VAIN) && After(Start(), VAIN) == Next(Sealed(), SettleFlight(0))
  {
    Begins();
    Overtakes1();
    Seals();
    var last := [Do(SettleFlight(0))];
    LastStep(Sealed(), SettleFlight(0));
    OneMore(Overtaken(), TickAt(100), Sealed(), last);
    OneMore(Begun(), RedeliverKnown(MOVED, 1), Overtaken(), [Do(TickAt(100))] + last);
    OneMore(Start(), Begin(FIRST), Begun(), [Do(RedeliverKnown(MOVED, 1))] + ([Do(TickAt(100))] + last));
  }

  lemma VainIsLive()
    ensures LiveRun(VAIN)
  {
    assert VAIN == [Do(Begin(FIRST)), Do(RedeliverKnown(MOVED, 1)), Do(TickAt(100)), Do(SettleFlight(0))];
  }

  /** A running engine that never crashed holds an empty Episode, which nothing remembers. */
  lemma OvertakenDeliveryOpensInVain()
    ensures Steady(Start()) && LiveRun(VAIN) && Behaves(Start(), VAIN)
    ensures var s := After(Start(), VAIN); s.phase.Running? && Shell(s.core.db, 1) && 1 !in s.core.deadlines
  {
    Begins();
    VainRuns();
    VainIsLive();
    OpensInVain();
  }

  // ----- exactly when ---------------------------------------------------------------------------------------

  /** When the overtaken first delivery correlates at last, it leaves an empty Episode exactly when it finds none
      to join. */
  lemma OpensInVainExactly(s: Sys, k: Key)
    requires Sound(s) && NoShells(s.core.db) && Enabled(s, SettleFlight(k))
    requires s.core.db.events[k].Drives() && s.core.db.events[k].area != NO_AREA && s.core.db.events[k].episode.Some?
    ensures NoShells(Next(s, SettleFlight(k)).core.db) <==> Target(s.core, k, FlightOf(s, k).at, false).Some?
  {
    var f, c := FlightOf(s, k), s.core;
    var p, target := DriveProgram(c, k, f.at, f.window, false), Target(c, k, f.at, false);
    assert SettleProgram(c, k, f.at, f.window, false) == p;
    HeldDrivePrefix(c, k, f.at, f.window, false, |p|);
    var db' := Next(s, SettleFlight(k)).core.db;
    if target.None? {
      NothingLinkedBeyond(c.db);
      assert Shell(db', |c.db.episodes|);
    } else {
      forall id: nat | Shell(db', id) ensures Shell(c.db, id) {
      }
    }
  }
}
