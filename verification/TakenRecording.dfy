/** Why a finalizer call must be spared: if, while it joins tasks, an unpublished recording it found is taken out
    of the recoverable map, the call can go on to return normally with that recording unpublished. */
module TakenRecording {
  import opened Domain
  import opened Store
  import opened Recorder
  import opened Publication
  import opened FinalizationBarrier

  /** A calm continuation that takes nothing more from the call. */
  ghost predicate Goes(s: Sys, run: seq<Action>, t: Sys, e: EpisodeId) {
    CalmRun(s, run) && Reaches(s, run, t) && SparesCall(s, run, e, false)
  }

  lemma GoesStep(s: Sys, a: Action, run: seq<Action>, t: Sys, e: EpisodeId)
    requires Registered(s) && Enabled(s, a) && !a.Start? && !a.Take? && LeavesCall(a, e) && Goes(Next(s, a), run, t, e)
    ensures Goes(s, [a] + run, t, e)
  {
    assert ([a] + run)[1..] == run;
  }

  // ----- joining ------------------------------------------------------------------------------

  /** The recording the call found is out of its reach, and what is in its reach can be published. */
  ghost predicate OutOfReach(s: Sys, e: EpisodeId, id: EvidenceId) {
    && s.up && Registered(s) && OneOwner(s) && e in s.barriers && s.barriers[e].Joining?
    && Present(s, id) && !s.recs[id].published && s.disk[id].slot.episode == e && Busy(s, id)
    && s.disk[id].slot !in s.recoverable && !(s.recs[id].Running() && !Holds(s.recordings, s.disk[id].slot, id))
    && (forall slot | slot in s.barriers[e].waiting :: !TaskFailed(s, slot, s.barriers[e].waiting[slot]))
  }

  /** Every other recording the call may have to publish can be published. */
  ghost predicate OthersPublishable(s: Sys, e: EpisodeId, id: EvidenceId) {
    forall x | x in s.disk && s.disk[x].slot.episode == e && x != id
               && (Holds(s.recoverable, s.disk[x].slot, x)
                   || (e in s.barriers && s.barriers[e].Joining? && Holds(s.barriers[e].waiting, s.disk[x].slot, x))) ::
      Publishable(s.db, x, s.disk[x])
  }

  /** The slots whose tasks the call still waits for. */
  function AwaitedSlots(s: Sys, e: EpisodeId): set<Slot>
    requires e in s.barriers && s.barriers[e].Joining?
  {
    set slot | slot in s.barriers[e].waiting && !TaskOver(s, slot, s.barriers[e].waiting[slot])
  }

  /** How the capture task of an awaited recording ends here: it parks, or fails to publish. */
  function Ending(s: Sys, w: EvidenceId): Action
    requires w in s.recs
  {
    if s.recs[w].task.Capturing? then Park(w) else Publish(w, FAILS)
  }

  /** The state after that. */
  function EndedState(s: Sys, w: EvidenceId): Sys
    requires Present(s, w)
  {
    if s.recs[w].task.Capturing? then Parked(s, w) else TaskDone(s, w, s.recs[w].published)
  }

  lemma EndingIs(s: Sys, w: EvidenceId)
    requires Registered(s) && Present(s, w) && s.recs[w].Running()
    ensures Enabled(s, Ending(s, w)) && Next(s, Ending(s, w)) == EndedState(s, w)
  {
    FailedAttempt(s, w);
  }

  lemma EndedKeepsOwner(s: Sys, w: EvidenceId)
    requires Registered(s) && OneOwner(s) && Present(s, w) && s.recs[w].Running()
    ensures Registered(EndedState(s, w)) && OneOwner(EndedState(s, w))
  {
    if s.recs[w].task.Capturing? {
      ParkRegistered(s, w);
      ParkShrinks(s, w);
    } else {
      TaskDoneRegistered(s, w, s.recs[w].published);
      TaskDoneShrinks(s, w, s.recs[w].published);
    }
    ShrinkKeepsOneOwner(s, EndedState(s, w));
  }

  lemma DifferentSlots(s: Sys, i: EvidenceId, j: EvidenceId)
    requires OneOwner(s) && Busy(s, i) && Busy(s, j) && i != j
    ensures s.disk[i].slot != s.disk[j].slot
  {
    assert Claims(s, i) && Claims(s, j);
  }

  /** Ending one awaited task leaves the taken recording out of reach. */
  lemma EndedOutOfReach(s: Sys, e: EpisodeId, id: EvidenceId, slot: Slot)
    requires OutOfReach(s, e, id) && OthersPublishable(s, e, id) && slot in AwaitedSlots(s, e)
    ensures var w := s.barriers[e].waiting[slot];
      && Present(s, w) && s.recs[w].Running() && OutOfReach(EndedState(s, w), e, id)
      && EndedState(s, w).barriers == s.barriers && AwaitedSlots(EndedState(s, w), e) <= AwaitedSlots(s, e) - {slot}
  {
    var w := s.barriers[e].waiting[slot];
    assert BarrierFiled(s, e, s.barriers[e]);
    assert w != id;
    DifferentSlots(s, w, id);
    EndedKeepsOwner(s, w);
    EndedTasks(s, e, slot);
    EndedKeepsTaken(s, w, id);
  }

  lemma EndedKeepsTaken(s: Sys, w: EvidenceId, id: EvidenceId)
    requires Present(s, w) && Present(s, id) && s.disk[w].slot != s.disk[id].slot && w != id
    ensures var t := EndedState(s, w);
      && Present(t, id) && t.recs[id] == s.recs[id] && t.disk == s.disk && (Busy(s, id) ==> Busy(t, id))
      && (t.disk[id].slot in t.recoverable <==> s.disk[id].slot in s.recoverable)
      && (Holds(t.recordings, t.disk[id].slot, id) <==> Holds(s.recordings, s.disk[id].slot, id))
  {
  }

  lemma EndedTasks(s: Sys, e: EpisodeId, slot: Slot)
    requires s.up && Registered(s) && e in s.barriers && s.barriers[e].Joining? && slot in AwaitedSlots(s, e)
    requires forall other | other in s.barriers[e].waiting :: !TaskFailed(s, other, s.barriers[e].waiting[other])
    ensures var w := s.barriers[e].waiting[slot];
      && Present(s, w) && EndedState(s, w).barriers == s.barriers
      && AwaitedSlots(EndedState(s, w), e) <= AwaitedSlots(s, e) - {slot}
      && forall other | other in s.barriers[e].waiting :: !TaskFailed(EndedState(s, w), other, s.barriers[e].waiting[other])
  {
    assert BarrierFiled(s, e, s.barriers[e]);
    var w := s.barriers[e].waiting[slot];
    forall other | other in s.barriers[e].waiting && other != slot ensures s.barriers[e].waiting[other] != w {
    }
  }

  lemma EndedPublishable(s: Sys, e: EpisodeId, id: EvidenceId, slot: Slot)
    requires OutOfReach(s, e, id) && OthersPublishable(s, e, id) && slot in AwaitedSlots(s, e)
    ensures var w := s.barriers[e].waiting[slot]; Present(s, w) && OthersPublishable(EndedState(s, w), e, id)
  {
    assert BarrierFiled(s, e, s.barriers[e]);
  }

  // ----- draining -------------------------------------------------------------------------------

  /** The call works through a list of publishable recordings that does not name the taken one. */
  ghost predicate Draining1(s: Sys, e: EpisodeId, id: EvidenceId, todo: seq<EvidenceId>) {
    && s.up && Registered(s) && Consistent(s.db) && e in s.barriers && s.barriers[e].Draining? && s.barriers[e].todo == todo
    && id in s.recs && !s.recs[id].published && id !in todo
    && (forall i, j | 0 <= i < j < |todo| :: todo[i] != todo[j])
    && forall x | x in todo :: Present(s, x) && Publishable(s.db, x, s.disk[x])
  }

  lemma {:induction false} AnyOrder(ids: set<EvidenceId>) returns (order: seq<EvidenceId>)
    ensures Lists(order, ids)
  {
    if ids == {} {
      order := [];
    } else {
      var x :| x in ids;
      var rest := AnyOrder(ids - {x});
      order := [x] + rest;
    }
  }

  lemma JoinDrains1(s: Sys, e: EpisodeId, id: EvidenceId, order: seq<EvidenceId>)
    requires OutOfReach(s, e, id) && OthersPublishable(s, e, id) && AwaitedSlots(s, e) == {} && Consistent(s.db)
    requires Lists(order, OfEpisode(s.recoverable, e).Values)
    ensures Enabled(s, Join(e, order)) && Draining1(Joined(s, e, order), e, id, order)
    ensures Joined(s, e, order).barriers[e].covered == s.barriers[e].covered
  {
    JoinFiled(s, e, order);
    forall slot | slot in s.barriers[e].waiting ensures TaskOver(s, slot, s.barriers[e].waiting[slot]) {
      assert slot !in AwaitedSlots(s, e);
    }
    forall x | x in order ensures Present(s, x) && x != id && Publishable(s.db, x, s.disk[x]) {
      assert x in OfEpisode(s.recoverable, e).Values;
      var slot :| slot in s.recoverable && slot.episode == e && s.recoverable[slot] == x;
    }
  }

  /** An attempt touches no other Evidence row. */
  lemma AttemptDbOthers(db: Db, id: EvidenceId, w: Workspace, o: Outcome, x: EvidenceId)
    requires Consistent(db) && x != id
    ensures var db' := AttemptDb(db, id, w, o);
      (x in db'.evidence <==> x in db.evidence) && (x in db.evidence ==> db'.evidence[x] == db.evidence[x])
  {
    var p := SinkProgram(db, id, w);
    var n := if o.raises && o.commits <= |p| then o.commits else |p|;
    assert RunTo(db, p, 0) == db;
    assert n >= 1 ==> RunTo(db, p, 1) == Apply(db, p[0]);
    assert n >= 2 ==> RunTo(db, p, 2) == Apply(RunTo(db, p, 1), p[1]);
  }

  lemma OthersStayPublishable(db: Db, id: EvidenceId, w: Workspace, o: Outcome, x: EvidenceId, v: Workspace)
    requires Consistent(db) && x != id && Publishable(db, x, v)
    ensures Publishable(AttemptDb(db, id, w, o), x, v)
  {
    AttemptDbOthers(db, id, w, o, x);
    AttemptDbKeeps(db, id, w, o);
  }

  /** The attempt at the head of the list succeeds, and leaves the others as they were. */
  lemma HeadIsPublished(s: Sys, e: EpisodeId, id: EvidenceId, todo: seq<EvidenceId>)
    requires Draining1(s, e, id, todo) && todo != []
    ensures var mid := Attempted(s, todo[0], SUCCEEDS);
      && Succeeds(s, todo[0], SUCCEEDS) && Registered(mid) && Consistent(mid.db) && SameMaps(s, mid)
      && id in mid.recs && !mid.recs[id].published
  {
    var x := todo[0];
    PublishableExactly(s.db, x, s.disk[x]);
    AttemptMovesNothing(s, x, SUCCEEDS);
    AttemptedRegistered(s, x, SUCCEEDS);
    AttemptDbKeeps(s.db, x, s.disk[x], SUCCEEDS);
    assert id != x;
  }

  lemma RestStaysPublishable(s: Sys, e: EpisodeId, id: EvidenceId, todo: seq<EvidenceId>, y: EvidenceId)
    requires Draining1(s, e, id, todo) && todo != [] && y in todo[1..]
    ensures var mid := Attempted(s, todo[0], SUCCEEDS); y in mid.disk && Publishable(mid.db, y, mid.disk[y])
  {
    assert y in todo && y != todo[0];
    OthersStayPublishable(s.db, todo[0], s.disk[todo[0]], SUCCEEDS, y, s.disk[y]);
  }

  /** One more recording is published. */
  lemma DrainGoesOn1(s: Sys, e: EpisodeId, id: EvidenceId, todo: seq<EvidenceId>)
    requires Draining1(s, e, id, todo) && todo != []
    ensures Enabled(s, Drain(e, SUCCEEDS)) && Draining1(Drained(s, e, SUCCEEDS), e, id, todo[1..])
    ensures Drained(s, e, SUCCEEDS).barriers[e].covered == s.barriers[e].covered
  {
    var mid := Attempted(s, todo[0], SUCCEEDS);
    HeadIsPublished(s, e, id, todo);
    forall y | y in todo[1..] ensures Present(mid, y) && Publishable(mid.db, y, mid.disk[y]) {
      assert y in todo;
      RestStaysPublishable(s, e, id, todo, y);
    }
    DrainAdvances(mid, e, id, todo);
  }

  lemma DrainAdvances(mid: Sys, e: EpisodeId, id: EvidenceId, todo: seq<EvidenceId>)
    requires mid.up && Registered(mid) && Consistent(mid.db) && e in mid.barriers && mid.barriers[e].Draining?
    requires mid.barriers[e].todo == todo && todo != [] && todo[0] in mid.disk && id in mid.recs && !mid.recs[id].published
    requires id !in todo && forall i, j | 0 <= i < j < |todo| :: todo[i] != todo[j]
    requires forall y | y in todo[1..] :: Present(mid, y) && Publishable(mid.db, y, mid.disk[y])
    ensures Draining1(DrainDone(mid, e, true), e, id, todo[1..])
    ensures DrainDone(mid, e, true).barriers[e].covered == mid.barriers[e].covered
  {
    DrainDoneRegistered(mid, e, true);
  }

  /** The call returned, and the recording is not published. */
  predicate ReturnedWithout(t: Sys, e: EpisodeId, id: EvidenceId, covered: set<EvidenceId>) {
    e in t.barriers && t.barriers[e] == Returned(covered) && id in t.recs && !t.recs[id].published
  }

  lemma {:induction false} DrainCanReturn(s: Sys, e: EpisodeId, id: EvidenceId, todo: seq<EvidenceId>)
    returns (run: seq<Action>, t: Sys)
    requires Draining1(s, e, id, todo)
    ensures Goes(s, run, t, e) && ReturnedWithout(t, e, id, s.barriers[e].covered)
    decreases |todo|
  {
    if todo == [] {
      t := Next(s, FinishDrain(e));
      BarrierMoveFiled(s, FinishDrain(e));
      GoesStep(s, FinishDrain(e), [], t, e);
      run := [FinishDrain(e)] + [];
    } else {
      DrainGoesOn1(s, e, id, todo);
      run, t := DrainCanReturn(Drained(s, e, SUCCEEDS), e, id, todo[1..]);
      GoesStep(s, Drain(e, SUCCEEDS), run, t, e);
      run := [Drain(e, SUCCEEDS)] + run;
    }
  }

  /** The awaited tasks end, and the call joins, drains its list and returns. */
  lemma {:induction false} CallCanReturn(s: Sys, e: EpisodeId, id: EvidenceId) returns (run: seq<Action>, t: Sys)
    requires OutOfReach(s, e, id) && OthersPublishable(s, e, id) && Consistent(s.db)
    ensures Goes(s, run, t, e) && ReturnedWithout(t, e, id, s.barriers[e].covered)
    decreases AwaitedSlots(s, e)
  {
    if AwaitedSlots(s, e) == {} {
      var order := AnyOrder(OfEpisode(s.recoverable, e).Values);
      JoinDrains1(s, e, id, order);
      run, t := DrainCanReturn(Joined(s, e, order), e, id, order);
      GoesStep(s, Join(e, order), run, t, e);
      run := [Join(e, order)] + run;
    } else {
      var slot :| slot in AwaitedSlots(s, e);
      var w := s.barriers[e].waiting[slot];
      EndedOutOfReach(s, e, id, slot);
      EndedPublishable(s, e, id, slot);
      EndingIs(s, w);
      run, t := CallCanReturn(EndedState(s, w), e, id);
      GoesStep(s, Ending(s, w), run, t, e);
      run := [Ending(s, w)] + run;
    }
  }

  // ----- the condition is exact -------------------------------------------------------------------

  lemma TakenFacts(s: Sys, a: Action, id: EvidenceId)
    requires Registered(s) && s.up && Enabled(s, a) && (a.Start? || a.Take?) && TakenBy(s, a) == Some(id)
    ensures var t := Next(s, a);
      && t.up && t.barriers == s.barriers && t.db == s.db && t.disk == s.disk && id in t.disk && t.disk[id].slot !in t.recoverable
      && Present(t, id) && t.recs[id].published == s.recs[id].published && Busy(t, id)
      && !(t.recs[id].Running() && !Holds(t.recordings, t.disk[id].slot, id))
  {
  }

  lemma TakeFailsNoTask(s: Sys, a: Action, id: EvidenceId, slot: Slot, w: EvidenceId)
    requires Registered(s) && Enabled(s, a) && (a.Start? || a.Take?) && TakenBy(s, a) == Some(id)
    requires !TaskFailed(s, slot, w)
    ensures !TaskFailed(Next(s, a), slot, w)
  {
  }

  /** Taking an unpublished recording puts it out of the call's reach. */
  lemma TakenIsOutOfReach(s: Sys, a: Action, e: EpisodeId, id: EvidenceId)
    requires Trusted(s) && CallHolds(s, e, false) && s.barriers[e].Joining? && Enabled(s, a)
    requires Takes(s, a, e) && TakenBy(s, a) == Some(id)
    requires forall slot | slot in s.barriers[e].waiting :: !TaskFailed(s, slot, s.barriers[e].waiting[slot])
    ensures Next(s, a).barriers == s.barriers && Next(s, a).db == s.db && OutOfReach(Next(s, a), e, id)
  {
    var t := Next(s, a);
    TakenFacts(s, a, id);
    StepShrinks(s, a);
    ShrinkKeepsOneOwner(s, t);
    MovesRegistered(s, a);
    forall slot | slot in s.barriers[e].waiting ensures !TaskFailed(t, slot, t.barriers[e].waiting[slot]) {
      TakeFailsNoTask(s, a, id, slot, s.barriers[e].waiting[slot]);
    }
  }

  lemma TakenLeavesOthers(s: Sys, a: Action, e: EpisodeId, id: EvidenceId)
    requires Registered(s) && s.up && Enabled(s, a) && (a.Start? || a.Take?) && TakenBy(s, a) == Some(id)
    requires OthersPublishable(s, e, id)
    ensures OthersPublishable(Next(s, a), e, id)
  {
    TakenFacts(s, a, id);
  }

  /** After this step the call can still go on, taking nothing more, to return with a found recording unpublished. */
  ghost predicate CanBreak(s: Sys, a: Action, e: EpisodeId)
    requires Registered(s) && Enabled(s, a)
  {
    exists run, t :: Goes(Next(s, a), run, t, e) && e in t.barriers && t.barriers[e].Returned?
                     && exists id :: id in t.barriers[e].covered && id in t.recs && !t.recs[id].published
  }

  /** Where no task the call waits for has failed and what it may have to publish can be published: a step opens
      the way to a false return exactly when it takes an unpublished recording the call found, while the call
      still joins tasks. */
  lemma TakeBreaksCallExactly(s: Sys, a: Action, e: EpisodeId)
    requires Trusted(s) && CallHolds(s, e, false) && Enabled(s, a)
    requires LeavesCall(a, e) && (a.Start? ==> CalmStart(s, a.slot))
    requires s.barriers[e].Joining? && Takes(s, a, e) ==>
               OthersPublishable(s, e, TakenBy(s, a).value)
               && forall slot | slot in s.barriers[e].waiting :: !TaskFailed(s, slot, s.barriers[e].waiting[slot])
    ensures CanBreak(s, a, e) <==> s.barriers[e].Joining? && Takes(s, a, e)
  {
    if s.barriers[e].Joining? && Takes(s, a, e) {
      TakeCanBreak(s, a, e);
    } else {
      SparedNeverBreaks(s, a, e);
    }
  }

  lemma TakeCanBreak(s: Sys, a: Action, e: EpisodeId)
    requires Trusted(s) && CallHolds(s, e, false) && s.barriers[e].Joining? && Enabled(s, a) && Takes(s, a, e)
    requires forall slot | slot in s.barriers[e].waiting :: !TaskFailed(s, slot, s.barriers[e].waiting[slot])
    requires OthersPublishable(s, e, TakenBy(s, a).value)
    ensures CanBreak(s, a, e)
  {
    var id := TakenBy(s, a).value;
    TakenIsOutOfReach(s, a, e, id);
    TakenLeavesOthers(s, a, e, id);
    var run, t := CallCanReturn(Next(s, a), e, id);
    assert id in t.barriers[e].covered && id in t.recs && !t.recs[id].published;
  }

  lemma SparedNeverBreaks(s: Sys, a: Action, e: EpisodeId)
    requires Trusted(s) && CallHolds(s, e, false) && Enabled(s, a) && Spares(s, a, e, false)
    requires LeavesCall(a, e) && (a.Start? ==> CalmStart(s, a.slot))
    ensures !CanBreak(s, a, e)
  {
    StepTrusted(s, a);
    StepHolds(s, a, e, false);
    forall run, t | Goes(Next(s, a), run, t, e) && e in t.barriers && t.barriers[e].Returned?
      ensures forall id | id in t.barriers[e].covered :: id in t.recs && t.recs[id].published
    {
      RunHolds(Next(s, a), run, t, e, false);
      ReturnedIsPublished(t, e);
    }
  }
}
