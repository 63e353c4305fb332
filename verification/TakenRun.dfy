/** A run from the initial state to such a call: one recording is parked at its lease and one still captures when
    the Episode is finalized; the parked one is resumed while the call waits for the other. */
module TakenRun {
  import opened Domain
  import opened Store
  import opened Recorder
  import opened Publication
  import opened FinalizationBarrier
  import opened TakenRecording

  const DOOR := Slot(0, "door")
  const HALL := Slot(0, "hall")

  function Database(state: EpisodeState): Db {
    Db([Episode("house", 0, Some(0), Some(0), Some(10), None, state, 0, 0)], map[], map[], 0)
  }

  function Space(slot: Slot): Workspace {
    Workspace(slot, "house", 0, true)
  }

  function Before(): Sys {
    Sys(Database(Active), map[], true, map[], map[], map[], map[])
  }

  function OneRecords(): Sys {
    Sys(Database(Active), map[1 := Space(DOOR)], true, map[DOOR := 1], map[], map[1 := Recording(false, Capturing)], map[])
  }

  function BothRecord(): Sys {
    Sys(Database(Active), map[1 := Space(DOOR), 2 := Space(HALL)], true, map[DOOR := 1, HALL := 2], map[],
        map[1 := Recording(false, Capturing), 2 := Recording(false, Capturing)], map[])
  }

  function OneParked(): Sys {
    BothRecord().(recordings := map[HALL := 2], recoverable := map[DOOR := 1],
                  recs := map[1 := Recording(false, Ended), 2 := Recording(false, Capturing)])
  }

  function Sealed(): Sys {
    OneParked().(db := Database(Finalizing))
  }

  /** The call has begun and found both. */
  function Called(): Sys {
    Sealed().(recordings := map[], barriers := map[0 := Joining({1, 2}, map[HALL := 2])])
  }

  const RESUME := Start(DOOR, 3, "house", 0)

  lemma StartsBoth()
    ensures Initial(Before()) && Trusted(BothRecord())
  {
    assert Members(Database(Active).events, 0) == {} && Attachments(Database(Active).evidence, 0) == {};
    InitialTrusted(Before());
    assert Next(Before(), Start(DOOR, 1, "house", 0)) == OneRecords();
    StepTrusted(Before(), Start(DOOR, 1, "house", 0));
    SecondStart();
    StepTrusted(OneRecords(), Start(HALL, 2, "house", 0));
  }

  lemma SecondStart()
    ensures Registered(OneRecords()) && Enabled(OneRecords(), Start(HALL, 2, "house", 0))
    ensures Next(OneRecords(), Start(HALL, 2, "house", 0)) == BothRecord() && CalmStart(OneRecords(), HALL)
  {
  }

  lemma Parks()
    ensures Steps(BothRecord(), Park(1), OneParked())
  {
    assert BothRecord().recordings - {DOOR} == map[HALL := 2];
  }

  lemma Seals()
    ensures Steps(OneParked(), Engine(TimeOut(11, 30, 0)), Sealed())
  {
    assert Apply(Database(Active), TimeOut(11, 30, 0)).episodes == Database(Finalizing).episodes;
  }

  lemma Calls()
    ensures Steps(Sealed(), BeginBarrier(0), Called()) && Found(Sealed(), 0) == {1, 2}
  {
    var active, left := OfEpisode(Sealed().recordings, 0), OfEpisode(Sealed().recoverable, 0);
    assert active == map[HALL := 2] && active[HALL] == 2 && left == map[DOOR := 1] && left[DOOR] == 1;
    assert active.Values == {2} && left.Values == {1};
    assert Sealed().recordings - active.Keys == map[];
    assert active.Values + left.Values == {1, 2};
    assert Begun(Sealed(), 0).barriers == Called().barriers;
  }

  lemma CalledIsTrusted()
    ensures Trusted(Called()) && CallHolds(Called(), 0, false)
  {
    StartsBoth();
    Parks();
    Seals();
    Calls();
    StepTrusted(BothRecord(), Park(1));
    StepTrusted(OneParked(), Engine(TimeOut(11, 30, 0)));
    StepTrusted(Sealed(), BeginBarrier(0));
    BeginHolds(Sealed(), 0, false);
  }

  lemma StartSteps()
    ensures Steps(Before(), Start(DOOR, 1, "house", 0), OneRecords())
    ensures Steps(OneRecords(), Start(HALL, 2, "house", 0), BothRecord())
  {
    assert Next(Before(), Start(DOOR, 1, "house", 0)) == OneRecords();
    SecondStart();
  }

  const SETUP := [Start(DOOR, 1, "house", 0), Start(HALL, 2, "house", 0)]
  const SEAL := [Park(1), Engine(TimeOut(11, 30, 0))]

  lemma CallIsReached()
    ensures Reaches(Before(), SETUP + SEAL + [BeginBarrier(0)], Called())
  {
    StartSteps();
    Parks();
    Seals();
    Calls();
    TwoSteps(Before(), SETUP[0], OneRecords(), SETUP[1], BothRecord());
    TwoSteps(BothRecord(), SEAL[0], OneParked(), SEAL[1], Sealed());
    OneStep(Sealed(), BeginBarrier(0));
    ReachesConcat(Before(), SETUP, BothRecord(), SEAL, Sealed());
    ReachesConcat(Before(), SETUP + SEAL, Sealed(), [BeginBarrier(0)], Called());
  }

  lemma ResumeTakes()
    ensures Enabled(Called(), RESUME) && Takes(Called(), RESUME, 0) && TakenBy(Called(), RESUME) == Some(1)
    ensures OthersPublishable(Called(), 0, 1) && !TaskFailed(Called(), HALL, 2)
  {
  }

  /** From the initial state to a finalizer call that found recordings 1 and 2, and, once recording 1 is resumed,
      on to its normal return with recording 1 unpublished. */
  lemma ResumedWhileJoining()
    ensures Initial(Before()) && Reaches(Before(), SETUP + SEAL + [BeginBarrier(0)], Called())
    ensures Found(Sealed(), 0) == {1, 2}
    ensures exists run, t :: Reaches(Called(), [RESUME] + run, t) && 0 in t.barriers && t.barriers[0].Returned?
                             && exists id :: id in {1, 2} && id in t.recs && !t.recs[id].published
  {
    StartsBoth();
    CallIsReached();
    Calls();
    CalledIsTrusted();
    ResumeTakes();
    TakeContinues();
  }

  lemma TakeContinues()
    requires Trusted(Called()) && CallHolds(Called(), 0, false) && Enabled(Called(), RESUME)
    requires Takes(Called(), RESUME, 0) && TakenBy(Called(), RESUME) == Some(1)
    requires OthersPublishable(Called(), 0, 1) && !TaskFailed(Called(), HALL, 2)
    ensures exists run, t :: Reaches(Called(), [RESUME] + run, t) && 0 in t.barriers && t.barriers[0].Returned?
                             && exists id :: id in {1, 2} && id in t.recs && !t.recs[id].published
  {
    TakenIsOutOfReach(Called(), RESUME, 0, 1);
    TakenLeavesOthers(Called(), RESUME, 0, 1);
    var run, t := CallCanReturn(Next(Called(), RESUME), 0, 1);
    OneStep(Called(), RESUME);
    ReachesConcat(Called(), [RESUME], Next(Called(), RESUME), run, t);
    assert 1 in {1, 2} && 1 in t.recs && !t.recs[1].published;
  }
}
