/** One finalizer call, phase by phase: stopping the Episode's recordings, awaiting their tasks, and
    publishing what is recoverable. */
module FinalizerCall {
  import opened Domain
  import opened Store
  import opened Recorder
  import opened Publication
  import opened FinalizationBarrier

  /** How a joined capture task ends. */
  datatype TaskEnd = Parks | Publishes(outcome: Outcome) | Fails

  /** A stopped capture task runs to its end; one that already failed stays as it is. */
  function TaskEnded(s: Sys, id: EvidenceId, end: TaskEnd): Sys
    requires Present(s, id)
  {
    if s.recs[id].task.Failed? then s
    else match end
      case Parks => Parked(s, id)
      case Fails => WithTask(s, id, Failed)
      case Publishes(o) => TaskPublished(WithTask(s, id, Publishing), id, o)
  }

  /** Only recording `id` and the recoverable entries of Episode `e` may differ. */
  ghost predicate OnlyTouches(s: Sys, t: Sys, e: EpisodeId, id: EvidenceId) {
    && t.up == s.up && t.recs.Keys == s.recs.Keys && t.disk.Keys == s.disk.Keys && t.barriers == s.barriers
    && t.recordings == s.recordings
    && (forall i | i in s.recs && i != id :: t.recs[i] == s.recs[i])
    && (forall i | i in s.disk :: t.disk[i].slot == s.disk[i].slot)
    && SameElsewhere(s.recoverable, t.recoverable, e)
  }

  ghost predicate SameElsewhere(m: map<Slot, EvidenceId>, m': map<Slot, EvidenceId>, e: EpisodeId) {
    forall slot: Slot | slot.episode != e :: (slot in m <==> slot in m') && (slot in m ==> m'[slot] == m[slot])
  }

  /** A recording was taken out of the registry and its capture is awaited. */
  predicate Awaited(s: Sys, id: EvidenceId) {
    Present(s, id) && !Holds(s.recordings, s.disk[id].slot, id)
    && (s.recs[id].task.Capturing? || s.recs[id].task.Failed?)
  }

  /** Another recording of the slot cannot be registered meanwhile. */
  lemma SlotStaysEmpty(s: Sys, id: EvidenceId)
    requires Registered(s) && OneOwner(s) && Awaited(s, id)
    ensures s.disk[id].slot !in s.recordings
  {
    assert Claims(s, id);
    assert forall j | j in s.disk && Holds(s.recordings, s.disk[j].slot, j) :: Claims(s, j);
  }

  lemma AttemptedTouches(s: Sys, id: EvidenceId, o: Outcome)
    requires Present(s, id)
    ensures OnlyTouches(s, Attempted(s, id, o), s.disk[id].slot.episode, id)
  {
    ConcludedTouches(s, id, AttemptDb(s.db, id, s.disk[id], o), Persists(s.db, id, s.disk[id], o), o.removes);
  }

  lemma ConcludedTouches(s: Sys, id: EvidenceId, db: Db, persisted: bool, removes: bool)
    requires Present(s, id)
    ensures OnlyTouches(s, Concluded(s, id, db, persisted, removes), s.disk[id].slot.episode, id)
  {
  }

  lemma TaskEndedTouches(s: Sys, id: EvidenceId, end: TaskEnd)
    requires Awaited(s, id) && s.disk[id].slot !in s.recordings
    ensures var t := TaskEnded(s, id, end); OnlyTouches(s, t, s.disk[id].slot.episode, id) && !t.recs[id].Running()
  {
    match end
    case Publishes(o) => PublishedTouches(s, id, o);
    case Parks => assert s.recordings - {s.disk[id].slot} == s.recordings;
    case Fails =>
  }

  lemma PublishedTouches(s: Sys, id: EvidenceId, o: Outcome)
    requires Awaited(s, id)
    ensures var t := TaskPublished(WithTask(s, id, Publishing), id, o);
      OnlyTouches(s, t, s.disk[id].slot.episode, id) && id in t.recs && !t.recs[id].Running()
  {
    AttemptedTouches(WithTask(s, id, Publishing), id, o);
  }

  /** The recorder keeps its invariants, and the call of Episode `e` all it found. */
  ghost predicate CallTrusted(s: Sys, e: EpisodeId) {
    Trusted(s) && CallHolds(s, e, true)
  }

  /** A step that starts and takes nothing keeps both. */
  lemma StepCallTrusted(s: Sys, a: Action, e: EpisodeId)
    requires CallTrusted(s, e) && Enabled(s, a) && !a.Start? && !a.Take? && LeavesCall(a, e)
    ensures CallTrusted(Next(s, a), e) && Next(s, a).barriers[e].covered == s.barriers[e].covered
  {
    StepTrusted(s, a);
    StepHolds(s, a, e, true);
  }

  lemma PublishesTrusted(s: Sys, id: EvidenceId, o: Outcome, e: EpisodeId)
    requires CallTrusted(s, e) && Awaited(s, id) && s.recs[id].task.Capturing?
    ensures CallTrusted(TaskPublished(WithTask(s, id, Publishing), id, o), e)
  {
    StepCallTrusted(s, NoticeStop(id), e);
    StepCallTrusted(WithTask(s, id, Publishing), Publish(id, o), e);
  }

  lemma TaskEndedTrusted(s: Sys, id: EvidenceId, end: TaskEnd, e: EpisodeId)
    requires CallTrusted(s, e) && Awaited(s, id)
    ensures CallTrusted(TaskEnded(s, id, end), e)
  {
    if s.recs[id].task.Capturing? {
      match end
      case Parks => StepCallTrusted(s, Park(id), e);
      case Fails => StepCallTrusted(s, TaskFails(id), e);
      case Publishes(o) => PublishesTrusted(s, id, o, e);
    }
  }

  /** What a call waits for belongs to its Episode, one recording a slot. */
  lemma WaitingIsFiled(s: Sys, e: EpisodeId)
    requires Registered(s) && e in s.barriers && s.barriers[e].Joining?
    ensures WaitingFiled(s, e, s.barriers[e].waiting)
  {
    assert BarrierFiled(s, e, s.barriers[e]);
  }

  /** Ending one awaited task leaves the others awaited. */
  lemma OneTaskEnds(s: Sys, e: EpisodeId, slot: Slot, end: TaskEnd)
    requires CallTrusted(s, e) && s.barriers[e].Joining?
    requires slot in s.barriers[e].waiting && Awaited(s, s.barriers[e].waiting[slot])
    ensures var t, id := TaskEnded(s, s.barriers[e].waiting[slot], end), s.barriers[e].waiting[slot];
      CallTrusted(t, e) && OnlyTouches(s, t, e, id) && !t.recs[id].Running()
    ensures OthersAwaited(s, TaskEnded(s, s.barriers[e].waiting[slot], end), s.barriers[e].waiting, slot)
  {
    var id := s.barriers[e].waiting[slot];
    WaitingIsFiled(s, e);
    SlotStaysEmpty(s, id);
    TaskEndedTrusted(s, id, end, e);
    TaskEndedTouches(s, id, end);
    OthersStayAwaited(s, TaskEnded(s, id, end), e, s.barriers[e].waiting, slot);
  }

  ghost predicate OthersAwaited(s: Sys, t: Sys, waiting: map<Slot, EvidenceId>, slot: Slot) {
    forall other | other in waiting && other != slot ::
      && (Awaited(s, waiting[other]) ==> Awaited(t, waiting[other]))
      && (waiting[other] in s.recs && !s.recs[waiting[other]].Running() ==>
            waiting[other] in t.recs && !t.recs[waiting[other]].Running())
  }

  lemma OthersStayAwaited(s: Sys, t: Sys, e: EpisodeId, waiting: map<Slot, EvidenceId>, slot: Slot)
    requires WaitingFiled(s, e, waiting) && slot in waiting && OnlyTouches(s, t, e, waiting[slot])
    ensures OthersAwaited(s, t, waiting, slot)
  {
    forall other | other in waiting && other != slot ensures waiting[other] != waiting[slot] {
    }
  }

  /** Some tasks of the call have ended; those under `todo` are still awaited. */
  ghost predicate JoinUnderWay(s: Sys, t: Sys, e: EpisodeId, todo: set<Slot>) {
    CallTrusted(t, e) && TasksAwaited(s, t, e, todo)
  }

  ghost predicate TasksAwaited(s: Sys, t: Sys, e: EpisodeId, todo: set<Slot>) {
    && e in s.barriers && s.barriers[e].Joining? && t.up == s.up && t.barriers == s.barriers
    && t.recordings == s.recordings && SameElsewhere(s.recoverable, t.recoverable, e)
    && todo <= s.barriers[e].waiting.Keys
    && (forall slot | slot in todo :: Awaited(t, s.barriers[e].waiting[slot]))
    && (forall slot | slot in s.barriers[e].waiting && slot !in todo ::
          s.barriers[e].waiting[slot] in t.recs && !t.recs[s.barriers[e].waiting[slot]].Running())
  }

  lemma JoinMoves(s: Sys, t: Sys, u: Sys, e: EpisodeId, todo: set<Slot>, slot: Slot)
    requires TasksAwaited(s, t, e, todo) && slot in todo
    requires OnlyTouches(t, u, e, s.barriers[e].waiting[slot]) && OthersAwaited(t, u, s.barriers[e].waiting, slot)
    requires s.barriers[e].waiting[slot] in u.recs && !u.recs[s.barriers[e].waiting[slot]].Running()
    ensures TasksAwaited(s, u, e, todo - {slot})
  {
  }

  lemma JoinGoesOn(s: Sys, t: Sys, e: EpisodeId, todo: set<Slot>, slot: Slot, end: TaskEnd)
    requires JoinUnderWay(s, t, e, todo) && slot in todo
    ensures JoinUnderWay(s, TaskEnded(t, s.barriers[e].waiting[slot], end), e, todo - {slot})
  {
    OneTaskEnds(t, e, slot, end);
    JoinMoves(s, t, TaskEnded(t, s.barriers[e].waiting[slot], end), e, todo, slot);
  }

  /** The call is working through its list; `left` is what remains of it. */
  ghost predicate DrainUnderWay(s: Sys, t: Sys, e: EpisodeId, left: seq<EvidenceId>) {
    CallTrusted(t, e) && DrainFrame(s, t, e) && t.barriers[e].Draining? && t.barriers[e].todo == left
  }

  ghost predicate DrainFrame(s: Sys, t: Sys, e: EpisodeId) {
    && e in s.barriers && e in t.barriers && t.up && t.recordings == s.recordings
    && t.barriers[e].covered == s.barriers[e].covered && SameElsewhere(s.recoverable, t.recoverable, e)
  }

  /** The call has returned or raised. */
  ghost predicate CallEnded(s: Sys, t: Sys, e: EpisodeId, ok: bool) {
    CallTrusted(t, e) && DrainFrame(s, t, e) && if ok then t.barriers[e].Returned? else t.barriers[e].Raised?
  }

  lemma DrainedFrame(s: Sys, t: Sys, e: EpisodeId, o: Outcome)
    requires DrainFrame(s, t, e) && t.barriers[e].Draining? && t.barriers[e].todo != []
    requires Present(t, t.barriers[e].todo[0]) && t.disk[t.barriers[e].todo[0]].slot.episode == e
    ensures DrainFrame(s, Drained(t, e, o), e)
    ensures var b := Drained(t, e, o).barriers[e];
      if Succeeds(t, t.barriers[e].todo[0], o) then b.Draining? && b.todo == t.barriers[e].todo[1..] else b.Raised?
  {
    AttemptMovesNothing(t, t.barriers[e].todo[0], o);
  }

  lemma DrainGoesOn(s: Sys, t: Sys, e: EpisodeId, left: seq<EvidenceId>, o: Outcome)
    requires DrainUnderWay(s, t, e, left) && left != []
    ensures Enabled(t, Drain(e, o))
    ensures var u := Drained(t, e, o);
      if Succeeds(t, left[0], o) then DrainUnderWay(s, u, e, left[1..]) else CallEnded(s, u, e, false)
  {
    HeadIsPresent(t, e);
    StepCallTrusted(t, Drain(e, o), e);
    DrainedFrame(s, t, e, o);
  }

  lemma HeadIsPresent(t: Sys, e: EpisodeId)
    requires Registered(t) && t.up && e in t.barriers && t.barriers[e].Draining? && t.barriers[e].todo != []
    ensures Present(t, t.barriers[e].todo[0]) && t.disk[t.barriers[e].todo[0]].slot.episode == e
  {
    assert BarrierFiled(t, e, t.barriers[e]);
    assert t.barriers[e].todo[0] in t.barriers[e].todo;
  }

  lemma FinishGoesOn(s: Sys, t: Sys, e: EpisodeId)
    requires DrainUnderWay(s, t, e, [])
    ensures CallEnded(s, t.(barriers := t.barriers[e := Returned(t.barriers[e].covered)]), e, true)
  {
    StepCallTrusted(t, FinishDrain(e), e);
  }

  /** The outcome of a finalizer call for the recordings it found in state `s`. */
  ghost predicate CallResult(s: Sys, t: Sys, e: EpisodeId, ok: bool) {
    && e < |t.db.episodes| && t.db.episodes[e].state.Finalizing?
    && (ok ==> forall id | id in Found(s, e) :: id in t.recs && t.recs[id].published && Linked(t.db, id, e))
    && (!ok ==> forall id | id in Found(s, e) :: Kept(t, id))
    && t.recordings == s.recordings - OfEpisode(s.recordings, e).Keys && SameElsewhere(s.recoverable, t.recoverable, e)
  }

  lemma CallBegins(s: Sys, e: EpisodeId)
    requires Trusted(s) && Enabled(s, BeginBarrier(e))
    ensures JoinUnderWay(Begun(s, e), Begun(s, e), e, OfEpisode(s.recordings, e).Keys)
  {
    StepTrusted(s, BeginBarrier(e));
    BeginHolds(s, e, true);
    BegunAwaits(s, e);
  }

  lemma BegunAwaits(s: Sys, e: EpisodeId)
    requires Registered(s) && RecordingsRun(s) && s.up
    ensures TasksAwaited(Begun(s, e), Begun(s, e), e, OfEpisode(s.recordings, e).Keys)
  {
  }

  /** The state once the stopped captures are joined. */
  ghost predicate TasksJoined(s: Sys, t: Sys, e: EpisodeId) {
    CallTrusted(t, e) && JoinFrame(s, t, e)
  }

  ghost predicate JoinFrame(s: Sys, t: Sys, e: EpisodeId) {
    && t.up && e in t.barriers && (t.barriers[e].Draining? || t.barriers[e].Raised?)
    && t.barriers[e].covered == Found(s, e)
    && t.recordings == s.recordings - OfEpisode(s.recordings, e).Keys && SameElsewhere(s.recoverable, t.recoverable, e)
  }

  lemma JoinedFrame(s: Sys, t: Sys, e: EpisodeId, order: seq<EvidenceId>)
    requires TasksAwaited(Begun(s, e), t, e, {}) && s.up
    requires forall slot | slot in t.barriers[e].waiting :: slot.episode == e
    ensures JoinFrame(s, Joined(t, e, order), e)
    ensures Joined(t, e, order).barriers[e].Draining? ==> Joined(t, e, order).barriers[e].todo == order
  {
  }

  lemma JoinIsEnabled(s: Sys, t: Sys, e: EpisodeId, order: seq<EvidenceId>)
    requires TasksAwaited(Begun(s, e), t, e, {}) && s.up && Lists(order, OfEpisode(t.recoverable, e).Values)
    ensures Enabled(t, Join(e, order))
  {
  }

  lemma JoinGivesFrame(s: Sys, t: Sys, e: EpisodeId, order: seq<EvidenceId>)
    requires JoinUnderWay(Begun(s, e), t, e, {}) && Lists(order, OfEpisode(t.recoverable, e).Values) && s.up
    ensures TasksJoined(s, Joined(t, e, order), e)
    ensures Joined(t, e, order).barriers[e].Draining? ==> Joined(t, e, order).barriers[e].todo == order
  {
    JoinIsEnabled(s, t, e, order);
    StepCallTrusted(t, Join(e, order), e);
    WaitingIsFiled(t, e);
    JoinedFrame(s, t, e, order);
  }

  lemma CallGivesResult(s: Sys, j: Sys, t: Sys, e: EpisodeId, ok: bool)
    requires TasksJoined(s, j, e) && CallEnded(j, t, e, ok)
    ensures CallResult(s, t, e, ok)
  {
    EndedResult(t, e, ok);
    EndedFrame(s, j, t, e);
  }

  lemma EndedResult(t: Sys, e: EpisodeId, ok: bool)
    requires Safe(t) && CallHolds(t, e, true) && if ok then t.barriers[e].Returned? else t.barriers[e].Raised?
    ensures e < |t.db.episodes| && t.db.episodes[e].state.Finalizing?
    ensures forall id | id in t.barriers[e].covered ::
              if ok then id in t.recs && t.recs[id].published && Linked(t.db, id, e) else Kept(t, id)
  {
  }

  lemma EndedFrame(s: Sys, j: Sys, t: Sys, e: EpisodeId)
    requires JoinFrame(s, j, e) && DrainFrame(j, t, e)
    ensures t.barriers[e].covered == Found(s, e)
    ensures t.recordings == s.recordings - OfEpisode(s.recordings, e).Keys && SameElsewhere(s.recoverable, t.recoverable, e)
  {
  }
}
