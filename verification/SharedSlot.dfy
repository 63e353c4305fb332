/** Why calm starts matter: a run in which a finalizer call returns normally although a recording it
    found is not published.  A recording that ended by itself is still publishing when its slot starts
    again; both publications fail, and the second to fail takes the slot's only place. */
module SharedSlot {
  import opened Domain
  import opened Store
  import opened Recorder
  import opened Publication
  import opened FinalizationBarrier

  const SLOT := Slot(0, "camera")

  function Row(state: EpisodeState): Episode {
    Episode("hall", 0, Some(0), Some(0), Some(10), None, state, 0, 0)
  }

  function Database(state: EpisodeState): Db {
    Db([Row(state)], map[], map[], 0)
  }

  const DISK := map[1 := Workspace(SLOT, "hall", 0, true), 2 := Workspace(SLOT, "hall", 0, true)]

  function Before(): Sys {
    Sys(Database(Active), map[], true, map[], map[], map[], map[])
  }

  /** The second start is not calm: workspace 1 is unpublished and in neither map. */
  function Shared(): Sys {
    Sys(Database(Active), DISK, true, map[SLOT := 2], map[],
        map[1 := Recording(false, Publishing), 2 := Recording(false, Capturing)], map[])
  }

  function Finalized(): Sys {
    Shared().(db := Database(Finalizing))
  }

  /** Both publications have failed; only workspace 1 is left in the recoverable map. */
  function BothFailed(): Sys {
    Sys(Database(Finalizing), DISK, true, map[], map[SLOT := 1],
        map[1 := Recording(false, Ended), 2 := Recording(false, Ended)],
        map[0 := Joining({2}, map[SLOT := 2])])
  }

  const SETUP := [Start(SLOT, 1, "hall", 0), PopSelf(1), Start(SLOT, 2, "hall", 0), Engine(TimeOut(11, 30, 0))]
  const FAILURES := [BeginBarrier(0), NoticeStop(2), Publish(2, FAILS), Publish(1, FAILS)]
  const RETURN := [Join(0, [1]), Drain(0, SUCCEEDS), FinishDrain(0)]

  function AfterFirstStart(): Sys {
    Before().(disk := map[1 := Workspace(SLOT, "hall", 0, true)], recordings := map[SLOT := 1],
              recs := map[1 := Recording(false, Capturing)])
  }

  function AfterPop(): Sys {
    AfterFirstStart().(recordings := map[], recs := map[1 := Recording(false, Publishing)])
  }

  lemma FirstRecording()
    ensures Reaches(Before(), SETUP[..2], AfterPop())
  {
    assert Next(Before(), SETUP[0]) == AfterFirstStart();
    assert AfterFirstStart().recordings - {SLOT} == map[];
    assert Next(AfterFirstStart(), SETUP[1]) == AfterPop();
    OneStep(Before(), SETUP[0]);
    OneStep(AfterFirstStart(), SETUP[1]);
    ReachesConcat(Before(), [SETUP[0]], AfterFirstStart(), [SETUP[1]], AfterPop());
    assert SETUP[..2] == [SETUP[0]] + [SETUP[1]];
  }

  lemma SecondRecording()
    ensures !CalmStart(AfterPop(), SLOT) && Reaches(AfterPop(), SETUP[2..], Finalized())
  {
    assert Claims(AfterPop(), 1);
    assert Next(AfterPop(), SETUP[2]) == Shared();
    assert Apply(Database(Active), TimeOut(11, 30, 0)).episodes == Database(Finalizing).episodes;
    assert Next(Shared(), SETUP[3]) == Finalized();
    OneStep(AfterPop(), SETUP[2]);
    OneStep(Shared(), SETUP[3]);
    ReachesConcat(AfterPop(), [SETUP[2]], Shared(), [SETUP[3]], Finalized());
    assert SETUP[2..] == [SETUP[2]] + [SETUP[3]];
  }

  function Called(): Sys {
    Finalized().(recordings := map[], barriers := map[0 := Joining({2}, map[SLOT := 2])])
  }

  function Noticed(): Sys {
    Called().(recs := map[1 := Recording(false, Publishing), 2 := Recording(false, Publishing)])
  }

  function SecondFailed(): Sys {
    Noticed().(recs := map[1 := Recording(false, Publishing), 2 := Recording(false, Ended)], recoverable := map[SLOT := 2])
  }

  lemma CallFindsTheSecond()
    ensures Found(Finalized(), 0) == {2} && Steps(Finalized(), FAILURES[0], Called())
  {
    var active := OfEpisode(Finalized().recordings, 0);
    assert active == map[SLOT := 2] && active[SLOT] == 2;
    assert active.Values == {2};
    assert OfEpisode(Finalized().recoverable, 0) == map[];
    assert Finalized().recordings - active.Keys == map[];
    assert active.Values + OfEpisode(Finalized().recoverable, 0).Values == {2};
    assert Begun(Finalized(), 0).barriers == Called().barriers;
    assert Begun(Finalized(), 0) == Called();
  }

  lemma SecondNotices()
    ensures Steps(Called(), FAILURES[1], Noticed())
  {
  }

  lemma SecondFails()
    ensures Steps(Noticed(), FAILURES[2], SecondFailed())
  {
    FailedAttempt(Noticed(), 2);
    assert TaskDone(Noticed(), 2, false) == SecondFailed();
  }

  lemma FirstFails()
    ensures Steps(SecondFailed(), FAILURES[3], BothFailed())
  {
    FailedAttempt(SecondFailed(), 1);
    assert TaskDone(SecondFailed(), 1, false) == BothFailed();
  }

  lemma BothFail()
    ensures Reaches(Finalized(), FAILURES, BothFailed())
  {
    CallFindsTheSecond();
    SecondNotices();
    SecondFails();
    FirstFails();
    TwoSteps(Finalized(), FAILURES[0], Called(), FAILURES[1], Noticed());
    TwoSteps(Noticed(), FAILURES[2], SecondFailed(), FAILURES[3], BothFailed());
    ReachesConcat(Finalized(), FAILURES[..2], Noticed(), FAILURES[2..], BothFailed());
    assert FAILURES[..2] == [FAILURES[0], FAILURES[1]] && FAILURES[2..] == [FAILURES[2], FAILURES[3]];
    assert FAILURES[..2] + FAILURES[2..] == FAILURES;
  }

  function Joined1(): Sys {
    BothFailed().(barriers := map[0 := Draining({2}, [1])])
  }

  function Drained1(): Sys {
    Next1().(barriers := map[0 := Draining({2}, [])], recoverable := map[])
  }

  /** Workspace 1 is published. */
  function Next1(): Sys {
    Attempted(Joined1(), 1, SUCCEEDS)
  }

  lemma FirstIsPublished()
    ensures Succeeds(Joined1(), 1, SUCCEEDS)
  {
    var db := Database(Finalizing);
    var p := SinkProgram(db, 1, DISK[1]);
    assert p == [CreateEvidence(1, Evidence("hall", 0, None)), LinkEvidence(1, 0, true)];
    RunShort(db, p);
    assert AttemptDb(db, 1, DISK[1], SUCCEEDS) == Run(db, p);
  }

  function Returned1(): Sys {
    Drained1().(barriers := map[0 := Returned({2})])
  }

  lemma Joins()
    ensures Steps(BothFailed(), RETURN[0], Joined1())
  {
    var left := OfEpisode(BothFailed().recoverable, 0);
    assert left == map[SLOT := 1] && left[SLOT] == 1;
    assert left.Values == {1};
    assert Joined(BothFailed(), 0, [1]) == Joined1();
  }

  lemma DrainsTheFirst()
    ensures Steps(Joined1(), RETURN[1], Drained1()) && DrainDone(Next1(), 0, true) == Drained1()
  {
    FirstIsPublished();
    assert Next1().recoverable - {SLOT} == map[];
    assert [1][1..] == [];
    assert DrainDone(Next1(), 0, true).barriers == Drained1().barriers;
    assert DrainDone(Next1(), 0, true) == Drained1();
  }

  lemma DrainedIsRegistered()
    ensures Registered(Drained1())
  {
    DrainsTheFirst();
    AttemptedRegistered(Joined1(), 1, SUCCEEDS);
    DrainDoneRegistered(Next1(), 0, true);
  }

  lemma Finishes()
    ensures Steps(Drained1(), RETURN[2], Returned1())
  {
    DrainedIsRegistered();
  }

  lemma CallReturns()
    ensures Reaches(BothFailed(), RETURN, Returned1())
  {
    Joins();
    DrainsTheFirst();
    Finishes();
    TwoSteps(BothFailed(), RETURN[0], Joined1(), RETURN[1], Drained1());
    OneStep(Drained1(), RETURN[2]);
    ReachesConcat(BothFailed(), [RETURN[0], RETURN[1]], Drained1(), [RETURN[2]], Returned1());
    assert [RETURN[0], RETURN[1]] + [RETURN[2]] == RETURN;
  }

  lemma StartsInitial()
    ensures Initial(Before())
  {
    assert Members(Database(Active).events, 0) == {} && Attachments(Database(Active).evidence, 0) == {};
  }

  lemma SetupRuns()
    ensures Reaches(Before(), SETUP, Finalized())
  {
    FirstRecording();
    SecondRecording();
    ReachesConcat(Before(), SETUP[..2], AfterPop(), SETUP[2..], Finalized());
    assert SETUP[..2] + SETUP[2..] == SETUP;
  }

  lemma CallLosesARecording()
    ensures Reaches(Finalized(), FAILURES + RETURN, Returned1())
    ensures 2 in Returned1().recs && !Returned1().recs[2].published
    ensures Returned1().recoverable == map[] && Returned1().recordings == map[]
  {
    BothFail();
    CallReturns();
    ReachesConcat(Finalized(), FAILURES, BothFailed(), RETURN, Returned1());
  }

  /** From the initial state to a finalizer call that found recording 2, and on to its normal return with
      recording 2 unpublished and in neither map. */
  lemma SharedSlotLosesARecording()
    ensures Initial(Before()) && Reaches(Before(), SETUP, Finalized()) && Found(Finalized(), 0) == {2}
    ensures exists t :: Reaches(Finalized(), FAILURES + RETURN, t) && t.barriers == map[0 := Returned({2})]
                        && 2 in t.recs && !t.recs[2].published && t.recoverable == map[] && t.recordings == map[]
  {
    StartsInitial();
    SetupRuns();
    CallFindsTheSecond();
    CallLosesARecording();
  }
}
