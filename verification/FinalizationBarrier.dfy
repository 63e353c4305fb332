/** The finalization barrier: what a normal return of the finalizer means, and when it can be trusted. */
module FinalizationBarrier {
  import opened Domain
  import opened Store
  import opened Recorder
  import opened Publication

  // ----- ownership of a slot -------------------------------------------------------------------

  /** The recording has a task that may still write, or one of the two maps holds it. */
  predicate Busy(s: Sys, id: EvidenceId) {
    id in s.recs && id in s.disk
    && (s.recs[id].Running() || s.recs[id].task.Failed? || s.recs[id].task.Taken?
        || Holds(s.recordings, s.disk[id].slot, id) || Holds(s.recoverable, s.disk[id].slot, id))
  }

  /** The workspace is not published yet, or still in use. */
  predicate Claims(s: Sys, id: EvidenceId) {
    id in s.disk && (!Linked(s.db, id, s.disk[id].slot.episode) || Busy(s, id))
  }

  ghost predicate OneOwner(s: Sys) {
    forall i, j | Claims(s, i) && Claims(s, j) && s.disk[i].slot == s.disk[j].slot :: i == j
  }

  /** Whatever claims the slot is the workspace a start would resume. */
  predicate CalmStart(s: Sys, slot: Slot) {
    slot in s.recordings || forall id | id in s.disk && Claims(s, id) && s.disk[id].slot == slot :: Holds(s.recoverable, slot, id)
  }

  /** No workspace gains a claim. */
  ghost predicate ClaimsShrink(s: Sys, t: Sys) {
    forall id | Claims(t, id) :: Claims(s, id) && t.disk[id].slot == s.disk[id].slot
  }

  lemma ShrinkKeepsOneOwner(s: Sys, t: Sys)
    requires OneOwner(s) && ClaimsShrink(s, t)
    ensures OneOwner(t)
  {
  }

  /** An attempt moves no recording and changes no task. */
  ghost predicate SameMaps(s: Sys, t: Sys) {
    && t.recordings == s.recordings && t.recoverable == s.recoverable && t.barriers == s.barriers && t.up == s.up
    && t.recs.Keys == s.recs.Keys && t.disk.Keys == s.disk.Keys
    && (forall id | id in s.recs :: t.recs[id].task == s.recs[id].task && (s.recs[id].published ==> t.recs[id].published))
    && (forall id | id in s.disk :: t.disk[id].slot == s.disk[id].slot)
  }

  lemma AttemptMovesNothing(s: Sys, id: EvidenceId, o: Outcome)
    requires Present(s, id)
    ensures SameMaps(s, Attempted(s, id, o))
    ensures Succeeds(s, id, o) ==> Attempted(s, id, o).recs[id].published
  {
    ConcludedMovesNothing(s, id, AttemptDb(s.db, id, s.disk[id], o), Persists(s.db, id, s.disk[id], o), o.removes);
  }

  lemma ConcludedMovesNothing(s: Sys, id: EvidenceId, db: Db, persisted: bool, removes: bool)
    requires Present(s, id)
    ensures SameMaps(s, Concluded(s, id, db, persisted, removes))
    ensures persisted ==> Concluded(s, id, db, persisted, removes).recs[id].published
  {
  }

  lemma SameMapsShrink(s: Sys, t: Sys)
    requires SameMaps(s, t) && LinksKept(s.db, t.db)
    ensures ClaimsShrink(s, t)
  {
  }

  lemma AttemptShrinks(s: Sys, id: EvidenceId, o: Outcome)
    requires Safe(s) && Present(s, id)
    ensures ClaimsShrink(s, Attempted(s, id, o))
  {
    AttemptMovesNothing(s, id, o);
    AttemptedSafe(s, id, o);
    SameMapsShrink(s, Attempted(s, id, o));
  }

  lemma TaskDoneShrinks(s: Sys, id: EvidenceId, succeeded: bool)
    requires Registered(s) && Present(s, id) && Busy(s, id)
    ensures ClaimsShrink(s, TaskDone(s, id, succeeded))
  {
  }

  lemma ParkShrinks(s: Sys, id: EvidenceId)
    requires Registered(s) && Present(s, id) && s.recs[id].Running()
    ensures ClaimsShrink(s, Parked(s, id))
  {
  }

  lemma JoinShrinks(s: Sys, e: EpisodeId, order: seq<EvidenceId>)
    requires Registered(s) && e in s.barriers && s.barriers[e].Joining?
    ensures ClaimsShrink(s, Joined(s, e, order))
  {
    assert BarrierFiled(s, e, s.barriers[e]);
  }

  lemma ScanShrinks(s: Sys, order: seq<EvidenceId>, known: set<string>)
    requires Safe(s) && !s.up && s.recoverable == map[] && s.recordings == map[]
    ensures ClaimsShrink(s, Scanned(s, order, known).(up := true)) && ClaimsShrink(s, Crashed(Scanned(s, order, known)))
  {
    var t := Scanned(s, order, known);
    ScanFrame(s, order, known);
    ScanFinds(s, order, known);
    ScanLeavesIdle(s, order, known);
    ScannedClaims(s, t, known);
  }

  /** After a scan only workspaces handed back are busy, and those are unpublished. */
  lemma ScannedClaims(s: Sys, t: Sys, known: set<string>)
    requires t.db == s.db && t.disk.Keys == s.disk.Keys && t.recordings == map[]
    requires forall id | id in s.disk :: t.disk[id].slot == s.disk[id].slot
    requires forall id | id in t.recs :: t.recs[id] == Recording(false, NoTask)
    requires forall slot | slot in t.recoverable :: Eligible(s, t.recoverable[slot], known)
    ensures ClaimsShrink(s, t.(up := true)) && ClaimsShrink(s, Crashed(t))
  {
  }

  lemma {:induction false} ScanLeavesIdle(s: Sys, order: seq<EvidenceId>, known: set<string>)
    requires s.recs == map[] && s.recordings == map[]
    ensures var t := Scanned(s, order, known);
      t.recordings == map[] && forall id | id in t.recs :: t.recs[id] == Recording(false, NoTask)
    decreases |order|
  {
    if order != [] {
      ScanLeavesIdle(s, order[..|order| - 1], known);
    }
  }

  /** Steps that only move recordings between maps and tasks. */
  lemma MoveShrinks(s: Sys, a: Action)
    requires Registered(s) && Enabled(s, a)
    requires a.PopSelf? || a.NoticeStop? || a.TaskFails? || a.Take? || a.BeginBarrier? || a.FinishDrain?
    ensures ClaimsShrink(s, Next(s, a))
  {
  }

  lemma ResumeShrinks(s: Sys, a: Action)
    requires Registered(s) && Enabled(s, a) && a.Start? && (a.slot in s.recordings || a.slot in s.recoverable)
    ensures ClaimsShrink(s, Next(s, a))
  {
  }

  lemma ClaimsShrinkTransitive(s: Sys, mid: Sys, t: Sys)
    requires ClaimsShrink(s, mid) && ClaimsShrink(mid, t)
    ensures ClaimsShrink(s, t)
  {
  }

  lemma DrainDoneShrinks(s: Sys, e: EpisodeId, succeeded: bool)
    requires e in s.barriers && s.barriers[e].Draining? && s.barriers[e].todo != [] && s.barriers[e].todo[0] in s.disk
    ensures ClaimsShrink(s, DrainDone(s, e, succeeded))
  {
  }

  lemma AttemptStepShrinks(s: Sys, a: Action)
    requires Safe(s) && Enabled(s, a) && Attempts(a)
    ensures ClaimsShrink(s, Next(s, a))
  {
    var id := if a.Drain? then s.barriers[a.episode].todo[0] else a.id;
    var mid := Attempted(s, id, a.outcome);
    AttemptShrinks(s, id, a.outcome);
    AttemptMovesNothing(s, id, a.outcome);
    match a
    case Publish(_, o) =>
      AttemptedSafe(s, id, o);
      TaskDoneShrinks(mid, id, Succeeds(s, id, o));
      ClaimsShrinkTransitive(s, mid, TaskDone(mid, id, Succeeds(s, id, o)));
    case Drain(e, o) =>
      DrainDoneShrinks(mid, e, Succeeds(s, id, o));
      ClaimsShrinkTransitive(s, mid, DrainDone(mid, e, Succeeds(s, id, o)));
    case PublishTaken(_, o) =>
      AttemptedSafe(s, id, o);
      TaskDoneShrinks(mid, id, true);
      ClaimsShrinkTransitive(s, mid, TaskDone(mid, id, true));
  }

  lemma CrashShrinks(s: Sys, inFlight: Option<EvidenceId>, n: nat)
    requires Safe(s) && Enabled(s, Crash(inFlight, n))
    ensures ClaimsShrink(s, Next(s, Crash(inFlight, n)))
  {
    if inFlight.Some? {
      var mid := Attempted(s, inFlight.value, Outcome(n, true, false, false));
      AttemptShrinks(s, inFlight.value, Outcome(n, true, false, false));
      assert ClaimsShrink(mid, Crashed(mid));
      ClaimsShrinkTransitive(s, mid, Crashed(mid));
    }
  }

  /** Steps that make a publication attempt. */
  predicate Attempts(a: Action) {
    a.Publish? || a.Drain? || a.PublishTaken?
  }

  predicate StartsAfresh(s: Sys, a: Action) {
    a.Start? && a.slot !in s.recordings && a.slot !in s.recoverable
  }

  lemma StepShrinks(s: Sys, a: Action)
    requires Safe(s) && Enabled(s, a) && !StartsAfresh(s, a)
    ensures ClaimsShrink(s, Next(s, a))
  {
    match a
    case Start(_, _, _, _) => ResumeShrinks(s, a);
    case Park(id) => ParkShrinks(s, id);
    case Publish(_, _) => AttemptStepShrinks(s, a);
    case PublishTaken(_, _) => AttemptStepShrinks(s, a);
    case Drain(_, _) => AttemptStepShrinks(s, a);
    case Join(e, order) => JoinShrinks(s, e, order);
    case Engine(c) => EngineSafe(s, c); SameMapsShrink(s, Next(s, a));
    case Close(e, at) => CloseSafe(s, e, at);
    case Crash(inFlight, n) => CrashShrinks(s, inFlight, n);
    case Scan(order, known) => ScanShrinks(s, order, known);
    case CrashInScan(order, known) => ScanShrinks(s, order, known);
    case _ => MoveShrinks(s, a);
  }

  /** A start keeps one owner a slot exactly when it is calm. */
  lemma StartKeepsOneOwnerExactly(s: Sys, slot: Slot, uuid: EvidenceId, area: Area, at: Time)
    requires Safe(s) && OneOwner(s) && Enabled(s, Start(slot, uuid, area, at))
    ensures OneOwner(Next(s, Start(slot, uuid, area, at))) <==> CalmStart(s, slot)
  {
    var a := Start(slot, uuid, area, at);
    var t := Next(s, a);
    if !StartsAfresh(s, a) {
      StepShrinks(s, a);
      ShrinkKeepsOneOwner(s, t);
      assert slot in s.recoverable ==> Claims(s, s.recoverable[slot]);
    } else {
      FreshClaims(s, a);
    }
  }

  lemma FreshClaims(s: Sys, a: Action)
    requires Safe(s) && Enabled(s, a) && StartsAfresh(s, a)
    ensures var t := Next(s, a);
      && Claims(t, a.uuid) && t.disk[a.uuid].slot == a.slot
      && (forall id | id in s.disk :: id != a.uuid && id in t.disk && t.disk[id] == s.disk[id])
      && (forall id | id in s.disk :: Claims(t, id) <==> Claims(s, id))
      && (forall id | id in t.disk :: id in s.disk || id == a.uuid)
  {
  }

  // ----- what a finalizer call holds ------------------------------------------------------------

  /** The recording is published, or the recoverable map holds it. */
  predicate Kept(s: Sys, id: EvidenceId) {
    id in s.recs && id in s.disk && (s.recs[id].published || Holds(s.recoverable, s.disk[id].slot, id))
  }

  /** A stopped recording whose task may still publish it, or failed. */
  predicate MayStillFinish(s: Sys, id: EvidenceId) {
    id in s.recs && id in s.disk && (s.recs[id].Running() || s.recs[id].task.Failed?)
    && !Holds(s.recordings, s.disk[id].slot, id)
  }

  ghost predicate Covers(s: Sys, e: EpisodeId, covered: set<EvidenceId>) {
    forall id | id in covered :: id in s.recs && id in s.disk && s.disk[id].slot.episode == e
  }

  /** The rest of a call's list names no other workspace of the slot. */
  ghost predicate AloneIn(s: Sys, todo: seq<EvidenceId>, id: EvidenceId) {
    id in s.disk && forall x | x in todo && x in s.disk && s.disk[x].slot == s.disk[id].slot :: x == id
  }

  /** What a call in progress knows of the recordings it found.  `whole` asks also that each unpublished one
      stays in the recoverable map once the tasks are joined, which matters when the call raises. */
  ghost predicate BarrierHolds(s: Sys, e: EpisodeId, b: Barrier, whole: bool) {
    Covers(s, e, b.covered) &&
    match b
    case Joining(covered, waiting) =>
      forall id | id in covered ::
        && (Kept(s, id) || (Holds(waiting, s.disk[id].slot, id) && MayStillFinish(s, id)))
        && (!s.recs[id].published ==> !Holds(s.recordings, s.disk[id].slot, id))
    case Draining(covered, todo) =>
      forall id | id in covered :: s.recs[id].published || (id in todo && (whole ==> Kept(s, id) && AloneIn(s, todo, id)))
    case Returned(covered) => forall id | id in covered :: s.recs[id].published
    case Raised(covered) => forall id | id in covered && whole :: Kept(s, id)
  }

  ghost predicate CallHolds(s: Sys, e: EpisodeId, whole: bool) {
    s.up && e in s.barriers && BarrierHolds(s, e, s.barriers[e], whole)
  }

  /** A registered recording has a task that has not been told to stop, or that failed, and is not recoverable. */
  ghost predicate RecordingsRun(s: Sys) {
    forall slot | slot in s.recordings && s.recordings[slot] in s.recs ::
      && (s.recs[s.recordings[slot]].task.Capturing? || s.recs[s.recordings[slot]].task.Failed?)
      && !Holds(s.recoverable, slot, s.recordings[slot])
  }

  /** The recording the step takes out of the recoverable map: to resume it, or for startup to publish it. */
  function TakenBy(s: Sys, a: Action): Option<EvidenceId> {
    match a
    case Start(slot, _, _, _) => if slot !in s.recordings && slot in s.recoverable then Some(s.recoverable[slot]) else None
    case Take(id) => Some(id)
    case _ => None
  }

  /** The step takes an unpublished recording the call of Episode `e` found. */
  predicate Takes(s: Sys, a: Action, e: EpisodeId) {
    var id := TakenBy(s, a);
    e in s.barriers && id.Some? && id.value in s.barriers[e].covered && id.value in s.recs && !s.recs[id.value].published
  }

  /** The step does not interfere with the call of Episode `e`: it takes nothing while the call joins tasks, and,
      for the `whole` guarantee, nothing at all. */
  predicate Spares(s: Sys, a: Action, e: EpisodeId, whole: bool) {
    Takes(s, a, e) ==> !whole && !s.barriers[e].Joining?
  }

  // ----- steps of others ----------------------------------------------------------------------------

  /** Nothing a call relies on that found `ids` in Episode `e` is undone. */
  ghost predicate Undisturbed(s: Sys, t: Sys, e: EpisodeId, ids: set<EvidenceId>) {
    && (forall id | id in s.disk :: id in t.disk && t.disk[id].slot == s.disk[id].slot)
    && forall id | id in ids && id in s.recs && id in s.disk && s.disk[id].slot.episode == e ::
      && id in t.recs
      && (s.recs[id].published ==> t.recs[id].published)
      && (Kept(s, id) ==> Kept(t, id))
      && (MayStillFinish(s, id) ==> MayStillFinish(t, id) || Kept(t, id))
      && (!t.recs[id].published && Holds(t.recordings, t.disk[id].slot, id) ==> Holds(s.recordings, s.disk[id].slot, id))
  }

  lemma UndisturbedHolds(s: Sys, t: Sys, e: EpisodeId, b: Barrier, whole: bool)
    requires BarrierHolds(s, e, b, whole) && Undisturbed(s, t, e, b.covered) && BarrierFiled(s, e, b)
    requires t.up
    ensures BarrierHolds(t, e, b, whole)
  {
  }

  lemma SameMapsUndisturbed(s: Sys, t: Sys, e: EpisodeId, ids: set<EvidenceId>)
    requires SameMaps(s, t)
    ensures Undisturbed(s, t, e, ids)
  {
  }

  lemma StartUndisturbed(s: Sys, a: Action, e: EpisodeId, ids: set<EvidenceId>)
    requires Registered(s) && Enabled(s, a) && a.Start?
    requires TakenBy(s, a).Some? && TakenBy(s, a).value in ids ==> s.recs[TakenBy(s, a).value].published
    ensures Undisturbed(s, Next(s, a), e, ids)
  {
  }

  lemma TakeUndisturbed(s: Sys, id: EvidenceId, e: EpisodeId, ids: set<EvidenceId>)
    requires Registered(s) && Enabled(s, Take(id)) && (id in ids ==> s.recs[id].published)
    ensures Undisturbed(s, Next(s, Take(id)), e, ids)
  {
  }

  /** Under one owner a slot a running recording may go back to is free, or holds that recording. */
  lemma SlotIsFree(s: Sys, id: EvidenceId)
    requires Registered(s) && OneOwner(s) && Busy(s, id)
    ensures s.disk[id].slot in s.recoverable ==> s.recoverable[s.disk[id].slot] == id
  {
    var slot := s.disk[id].slot;
    if slot in s.recoverable {
      assert Claims(s, s.recoverable[slot]) && Claims(s, id);
    }
  }

  lemma ParkUndisturbed(s: Sys, id: EvidenceId, e: EpisodeId, ids: set<EvidenceId>)
    requires Registered(s) && Present(s, id)
    requires s.disk[id].slot in s.recoverable ==> s.recoverable[s.disk[id].slot] == id
    ensures Undisturbed(s, Parked(s, id), e, ids)
  {
  }

  /** A task that ends published, put back, or that no call waits for. */
  lemma TaskDoneUndisturbed(s: Sys, id: EvidenceId, e: EpisodeId, ids: set<EvidenceId>, succeeded: bool)
    requires Registered(s) && Present(s, id) && (succeeded ==> s.recs[id].published || s.recs[id].task.Taken?)
    requires s.disk[id].slot in s.recoverable ==> s.recoverable[s.disk[id].slot] == id
    ensures Undisturbed(s, TaskDone(s, id, succeeded), e, ids)
  {
  }

  lemma TaskMoveUndisturbed(s: Sys, a: Action, e: EpisodeId, ids: set<EvidenceId>)
    requires Registered(s) && Enabled(s, a) && (a.PopSelf? || a.NoticeStop? || a.TaskFails?)
    ensures Undisturbed(s, Next(s, a), e, ids)
  {
  }

  lemma OtherMoveUndisturbed(s: Sys, a: Action, e: EpisodeId, ids: set<EvidenceId>)
    requires Registered(s) && Enabled(s, a) && (a.BeginBarrier? || a.FinishDrain? || a.Close? || a.Engine?)
    ensures Undisturbed(s, Next(s, a), e, ids)
  {
    assert Next(s, a).recs == s.recs && Next(s, a).disk == s.disk && Next(s, a).recoverable == s.recoverable;
  }

  lemma JoinUndisturbed(s: Sys, e': EpisodeId, order: seq<EvidenceId>, e: EpisodeId, ids: set<EvidenceId>)
    requires Registered(s) && e' in s.barriers && s.barriers[e'].Joining? && e != e'
    ensures Undisturbed(s, Joined(s, e', order), e, ids)
  {
    assert BarrierFiled(s, e', s.barriers[e']);
  }

  lemma DrainDoneUndisturbed(s: Sys, e': EpisodeId, succeeded: bool, e: EpisodeId, ids: set<EvidenceId>)
    requires e' in s.barriers && s.barriers[e'].Draining? && s.barriers[e'].todo != []
    requires s.barriers[e'].todo[0] in s.disk && s.disk[s.barriers[e'].todo[0]].slot.episode == e' && e != e'
    ensures Undisturbed(s, DrainDone(s, e', succeeded), e, ids)
  {
  }

  lemma UndisturbedTransitive(s: Sys, mid: Sys, t: Sys, e: EpisodeId, ids: set<EvidenceId>)
    requires Undisturbed(s, mid, e, ids) && Undisturbed(mid, t, e, ids)
    ensures Undisturbed(s, t, e, ids)
  {
  }

  lemma PublishUndisturbed(s: Sys, id: EvidenceId, o: Outcome, e: EpisodeId, ids: set<EvidenceId>)
    requires Registered(s) && OneOwner(s) && Present(s, id) && s.recs[id].Running()
    ensures Undisturbed(s, TaskPublished(s, id, o), e, ids)
  {
    var mid := Attempted(s, id, o);
    AttemptMovesNothing(s, id, o);
    AttemptedRegistered(s, id, o);
    SameMapsUndisturbed(s, mid, e, ids);
    SlotIsFree(s, id);
    TaskDoneUndisturbed(mid, id, e, ids, Succeeds(s, id, o));
    UndisturbedTransitive(s, mid, TaskPublished(s, id, o), e, ids);
  }

  lemma PublishTakenUndisturbed(s: Sys, id: EvidenceId, o: Outcome, e: EpisodeId, ids: set<EvidenceId>)
    requires Registered(s) && OneOwner(s) && Present(s, id) && s.recs[id].task.Taken?
    ensures Undisturbed(s, TaskDone(Attempted(s, id, o), id, true), e, ids)
  {
    var mid := Attempted(s, id, o);
    AttemptMovesNothing(s, id, o);
    AttemptedRegistered(s, id, o);
    SameMapsUndisturbed(s, mid, e, ids);
    SlotIsFree(s, id);
    TaskDoneUndisturbed(mid, id, e, ids, true);
    UndisturbedTransitive(s, mid, TaskDone(mid, id, true), e, ids);
  }

  lemma DrainUndisturbed(s: Sys, e': EpisodeId, o: Outcome, e: EpisodeId, ids: set<EvidenceId>)
    requires Registered(s) && Enabled(s, Drain(e', o)) && e != e'
    ensures Undisturbed(s, Drained(s, e', o), e, ids)
  {
    var id := s.barriers[e'].todo[0];
    var mid := Attempted(s, id, o);
    assert BarrierFiled(s, e', s.barriers[e']);
    AttemptMovesNothing(s, id, o);
    SameMapsUndisturbed(s, mid, e, ids);
    DrainDoneUndisturbed(mid, e', Succeeds(s, id, o), e, ids);
    UndisturbedTransitive(s, mid, Drained(s, e', o), e, ids);
  }

  // ----- the call's own steps ------------------------------------------------------------------------

  lemma BeginHolds(s: Sys, e: EpisodeId, whole: bool)
    requires Registered(s) && RecordingsRun(s) && s.up
    ensures BarrierHolds(Begun(s, e), e, Begun(s, e).barriers[e], whole)
  {
    var active, t := OfEpisode(s.recordings, e), Begun(s, e);
    forall id | id in t.barriers[e].covered
      ensures id in s.recs && id in s.disk && s.disk[id].slot.episode == e
      ensures Kept(t, id) || (Holds(active, t.disk[id].slot, id) && MayStillFinish(t, id))
    {
      if id in active.Values {
        var slot :| slot in active && active[slot] == id;
      } else {
        var slot :| slot in OfEpisode(s.recoverable, e) && s.recoverable[slot] == id;
      }
    }
  }

  lemma JoinRaises(s: Sys, e: EpisodeId, id: EvidenceId)
    requires Registered(s) && OneOwner(s) && e in s.barriers && s.barriers[e].Joining? && id in s.recs && id in s.disk
    requires Kept(s, id) || (Holds(s.barriers[e].waiting, s.disk[id].slot, id) && TaskFailed(s, s.disk[id].slot, id))
    ensures Kept(s.(recoverable := s.recoverable + Unsaved(s, s.barriers[e].waiting)), id)
  {
    var slot, unsaved := s.disk[id].slot, Unsaved(s, s.barriers[e].waiting);
    assert BarrierFiled(s, e, s.barriers[e]);
    if !s.recs[id].published && slot in unsaved {
      assert Busy(s, id) && Busy(s, unsaved[slot]);
      assert Claims(s, id) && Claims(s, unsaved[slot]);
    }
  }

  lemma JoinHolds(s: Sys, e: EpisodeId, order: seq<EvidenceId>, whole: bool)
    requires Registered(s) && OneOwner(s) && Enabled(s, Join(e, order)) && BarrierHolds(s, e, s.barriers[e], whole)
    ensures BarrierHolds(Joined(s, e, order), e, Joined(s, e, order).barriers[e], whole)
  {
    var b, t := s.barriers[e], Joined(s, e, order);
    forall id | id in b.covered
      ensures Kept(s, id) || (Holds(b.waiting, s.disk[id].slot, id) && TaskFailed(s, s.disk[id].slot, id))
    {
      assert Holds(b.waiting, s.disk[id].slot, id) ==> TaskOver(s, s.disk[id].slot, b.waiting[s.disk[id].slot]);
    }
    if t.barriers[e].Raised? {
      forall id | id in b.covered ensures Kept(t, id) {
        JoinRaises(s, e, id);
      }
    } else {
      JoinDrains(s, e, order, whole);
    }
  }

  /** No task failed, so every unpublished recording the call found is listed. */
  lemma JoinDrains(s: Sys, e: EpisodeId, order: seq<EvidenceId>, whole: bool)
    requires Registered(s) && Enabled(s, Join(e, order)) && Covers(s, e, s.barriers[e].covered)
    requires Joined(s, e, order).barriers[e].Draining?
    requires forall id | id in s.barriers[e].covered ::
               Kept(s, id) || (Holds(s.barriers[e].waiting, s.disk[id].slot, id) && TaskFailed(s, s.disk[id].slot, id))
    ensures BarrierHolds(Joined(s, e, order), e, Joined(s, e, order).barriers[e], whole)
  {
    var b, t := s.barriers[e], Joined(s, e, order);
    var left := OfEpisode(s.recoverable, e);
    forall x | x in order ensures x in s.recs && x in s.disk && Holds(s.recoverable, s.disk[x].slot, x) {
      assert x in left.Values;
      var slot :| slot in left && left[slot] == x;
    }
    forall id | id in b.covered && !s.recs[id].published ensures id in order && Kept(t, id) && AloneIn(t, order, id) {
      assert Holds(b.waiting, s.disk[id].slot, id) ==> !TaskFailed(s, s.disk[id].slot, b.waiting[s.disk[id].slot]);
      assert left[s.disk[id].slot] == id;
      assert id in left.Values;
    }
  }

  lemma DrainDoneHolds(s: Sys, e: EpisodeId, succeeded: bool, whole: bool)
    requires e in s.barriers && s.barriers[e].Draining? && s.barriers[e].todo != [] && BarrierHolds(s, e, s.barriers[e], whole)
    requires s.barriers[e].todo[0] in s.disk && s.barriers[e].todo[0] in s.recs
    requires succeeded ==> s.recs[s.barriers[e].todo[0]].published
    ensures BarrierHolds(DrainDone(s, e, succeeded), e, DrainDone(s, e, succeeded).barriers[e], whole)
  {
    var todo, t := s.barriers[e].todo, DrainDone(s, e, succeeded);
    assert forall id | id in todo :: id == todo[0] || id in todo[1..];
    assert forall id | id in todo[1..] :: id in todo;
    if succeeded {
      forall id | id in s.barriers[e].covered && !s.recs[id].published && whole
        ensures Kept(t, id) && AloneIn(t, todo[1..], id)
      {
        assert todo[0] in todo;
      }
    }
  }

  lemma DrainedHolds(s: Sys, e: EpisodeId, o: Outcome, whole: bool)
    requires Registered(s) && Enabled(s, Drain(e, o)) && BarrierHolds(s, e, s.barriers[e], whole)
    ensures BarrierHolds(Drained(s, e, o), e, Drained(s, e, o).barriers[e], whole)
  {
    var id := s.barriers[e].todo[0];
    var mid := Attempted(s, id, o);
    AttemptMovesNothing(s, id, o);
    SameMapsUndisturbed(s, mid, e, s.barriers[e].covered);
    UndisturbedHolds(s, mid, e, s.barriers[e], whole);
    DrainDoneHolds(mid, e, Succeeds(s, id, o), whole);
  }

  // ----- every step ---------------------------------------------------------------------------------

  /** The action belongs to the finalizer call of Episode `e`. */
  predicate ActsOn(a: Action, e: EpisodeId) {
    || (a.Join? && a.episode == e) || (a.Drain? && a.episode == e) || (a.FinishDrain? && a.episode == e)
  }

  /** The step leaves Episode `e` to the finalizer call in progress. */
  predicate LeavesCall(a: Action, e: EpisodeId) {
    !a.Crash? && a != BeginBarrier(e) && !(a.Close? && a.episode == e)
  }

  lemma OthersUndisturbed(s: Sys, a: Action, e: EpisodeId)
    requires Registered(s) && OneOwner(s) && Enabled(s, a) && s.up && e in s.barriers
    requires LeavesCall(a, e) && !ActsOn(a, e) && !Takes(s, a, e)
    ensures Undisturbed(s, Next(s, a), e, s.barriers[e].covered)
  {
    var ids := s.barriers[e].covered;
    match a
    case Start(_, _, _, _) => StartUndisturbed(s, a, e, ids);
    case Take(id) => TakeUndisturbed(s, id, e, ids);
    case Park(id) => SlotIsFree(s, id); ParkUndisturbed(s, id, e, ids);
    case Publish(id, o) => PublishUndisturbed(s, id, o, e, ids);
    case PublishTaken(id, o) => PublishTakenUndisturbed(s, id, o, e, ids);
    case Drain(e', o) => DrainUndisturbed(s, e', o, e, ids);
    case Join(e', order) => JoinUndisturbed(s, e', order, e, ids);
    case BeginBarrier(_) => OtherMoveUndisturbed(s, a, e, ids);
    case FinishDrain(_) => OtherMoveUndisturbed(s, a, e, ids);
    case Close(_, _) => OtherMoveUndisturbed(s, a, e, ids);
    case Engine(_) => OtherMoveUndisturbed(s, a, e, ids);
    case _ => TaskMoveUndisturbed(s, a, e, ids);
  }

  /** The call is where it was, unless the step is its own. */
  lemma AttemptStepFrame(s: Sys, a: Action, e: EpisodeId)
    requires Registered(s) && Enabled(s, a) && Attempts(a) && e in s.barriers
    ensures var t := Next(s, a);
      && t.up && e in t.barriers && t.barriers[e].covered == s.barriers[e].covered
      && (!ActsOn(a, e) ==> t.barriers[e] == s.barriers[e])
  {
    AttemptMovesNothing(s, if a.Drain? then s.barriers[a.episode].todo[0] else a.id, a.outcome);
  }

  lemma MoveFrame(s: Sys, a: Action, e: EpisodeId)
    requires Registered(s) && Enabled(s, a) && s.up && LeavesCall(a, e) && !Attempts(a) && e in s.barriers
    ensures var t := Next(s, a);
      && t.up && e in t.barriers && t.barriers[e].covered == s.barriers[e].covered
      && (!ActsOn(a, e) ==> t.barriers[e] == s.barriers[e])
  {
    if a.BeginBarrier? || a.Join? || a.FinishDrain? || a.Close? {
      CallMoveFrame(s, a, e);
    } else {
      TaskMoveFrame(s, a);
    }
  }

  lemma CallMoveFrame(s: Sys, a: Action, e: EpisodeId)
    requires Registered(s) && Enabled(s, a) && LeavesCall(a, e) && e in s.barriers
    requires a.BeginBarrier? || a.Join? || a.FinishDrain? || a.Close?
    ensures var t := Next(s, a);
      && t.up && e in t.barriers && t.barriers[e].covered == s.barriers[e].covered
      && (!ActsOn(a, e) ==> t.barriers[e] == s.barriers[e])
  {
  }

  /** Steps of tasks, starts and the engine leave every call where it was. */
  lemma TaskMoveFrame(s: Sys, a: Action)
    requires Registered(s) && Enabled(s, a) && s.up && !a.Crash? && !Attempts(a)
    requires !(a.BeginBarrier? || a.Join? || a.FinishDrain? || a.Close?)
    ensures Next(s, a).up && Next(s, a).barriers == s.barriers
  {
  }

  lemma StepFrame(s: Sys, a: Action, e: EpisodeId)
    requires Registered(s) && Enabled(s, a) && s.up && LeavesCall(a, e) && e in s.barriers
    ensures var t := Next(s, a);
      && t.up && e in t.barriers && t.barriers[e].covered == s.barriers[e].covered
      && (!ActsOn(a, e) ==> t.barriers[e] == s.barriers[e])
  {
    if Attempts(a) {
      AttemptStepFrame(s, a, e);
    } else {
      MoveFrame(s, a, e);
    }
  }

  /** Once the tasks are joined, taking a recording does not undo what a normal return means. */
  lemma LateTakeHolds(s: Sys, a: Action, e: EpisodeId)
    requires Registered(s) && CallHolds(s, e, false) && Enabled(s, a) && (a.Start? || a.Take?) && !s.barriers[e].Joining?
    ensures CallHolds(Next(s, a), e, false)
  {
  }

  lemma OwnStepHolds(s: Sys, a: Action, e: EpisodeId, whole: bool)
    requires Registered(s) && OneOwner(s) && CallHolds(s, e, whole) && Enabled(s, a) && ActsOn(a, e)
    ensures var t := Next(s, a); e in t.barriers && BarrierHolds(t, e, t.barriers[e], whole)
  {
    match a
    case Join(_, order) => JoinHolds(s, e, order, whole);
    case Drain(_, o) => DrainedHolds(s, e, o, whole);
    case FinishDrain(_) =>
  }

  /** While at most one workspace claims each slot, a step that spares the call keeps what the call holds. */
  lemma StepHolds(s: Sys, a: Action, e: EpisodeId, whole: bool)
    requires Registered(s) && OneOwner(s) && CallHolds(s, e, whole) && Enabled(s, a) && LeavesCall(a, e) && Spares(s, a, e, whole)
    ensures CallHolds(Next(s, a), e, whole) && Next(s, a).barriers[e].covered == s.barriers[e].covered
  {
    StepFrame(s, a, e);
    if Takes(s, a, e) {
      LateTakeHolds(s, a, e);
    } else if ActsOn(a, e) {
      OwnStepHolds(s, a, e, whole);
    } else {
      OthersUndisturbed(s, a, e);
      assert BarrierFiled(s, e, s.barriers[e]);
      UndisturbedHolds(s, Next(s, a), e, s.barriers[e], whole);
    }
  }

  // ----- registered recordings ------------------------------------------------------------------------

  lemma SameMapsRun(s: Sys, t: Sys)
    requires SameMaps(s, t) && RecordingsRun(s)
    ensures RecordingsRun(t)
  {
  }

  lemma TaskDoneRuns(s: Sys, id: EvidenceId, succeeded: bool)
    requires Registered(s) && Present(s, id) && RecordingsRun(s) && (s.recs[id].task.Publishing? || s.recs[id].task.Taken?)
    ensures RecordingsRun(TaskDone(s, id, succeeded))
  {
    assert forall slot | slot in s.recordings :: s.recordings[slot] != id;
  }

  lemma AttemptStepRuns(s: Sys, a: Action)
    requires Registered(s) && Enabled(s, a) && RecordingsRun(s) && Attempts(a)
    ensures RecordingsRun(Next(s, a))
  {
    var id := if a.Drain? then s.barriers[a.episode].todo[0] else a.id;
    var mid := Attempted(s, id, a.outcome);
    AttemptMovesNothing(s, id, a.outcome);
    AttemptedRegistered(s, id, a.outcome);
    SameMapsRun(s, mid);
    if !a.Drain? {
      TaskDoneRuns(mid, id, if a.Publish? then Succeeds(s, id, a.outcome) else true);
    } else {
      assert RecordingsRun(DrainDone(mid, a.episode, Succeeds(s, id, a.outcome)));
    }
  }

  lemma MoveRuns(s: Sys, a: Action)
    requires Registered(s) && Enabled(s, a) && RecordingsRun(s) && s.up && !a.Crash? && !Attempts(a)
    ensures RecordingsRun(Next(s, a))
  {
    if a.BeginBarrier? || a.Join? || a.FinishDrain? || a.Close? || a.Engine? {
      CallMoveRuns(s, a);
    } else {
      TaskMoveRuns(s, a);
    }
  }

  lemma CallMoveRuns(s: Sys, a: Action)
    requires Registered(s) && Enabled(s, a) && RecordingsRun(s)
    requires a.BeginBarrier? || a.Join? || a.FinishDrain? || a.Close? || a.Engine?
    ensures RecordingsRun(Next(s, a))
  {
  }

  lemma TaskMoveRuns(s: Sys, a: Action)
    requires Registered(s) && Enabled(s, a) && RecordingsRun(s)
    requires a.Start? || a.Park? || a.PopSelf? || a.NoticeStop? || a.TaskFails? || a.Take?
    ensures RecordingsRun(Next(s, a))
  {
  }

  lemma StepRuns(s: Sys, a: Action)
    requires Safe(s) && Enabled(s, a) && RecordingsRun(s)
    ensures RecordingsRun(Next(s, a))
  {
    if a.Scan? {
      ScanLeavesIdle(s, a.order, a.known);
    } else if a.Crash? || a.CrashInScan? {
    } else if Attempts(a) {
      AttemptStepRuns(s, a);
    } else {
      MoveRuns(s, a);
    }
  }

  // ----- whole runs -----------------------------------------------------------------------------------

  /** Every start of the run finds its slot unclaimed, or resumes what claims it. */
  ghost predicate CalmRun(s: Sys, run: seq<Action>)
    decreases |run|
  {
    run == [] || (Registered(s) && Enabled(s, run[0]) && (run[0].Start? ==> CalmStart(s, run[0].slot))
                  && CalmRun(Next(s, run[0]), run[1..]))
  }

  ghost predicate Trusted(s: Sys) {
    Safe(s) && OneOwner(s) && RecordingsRun(s)
  }

  lemma InitialTrusted(s: Sys)
    requires Initial(s)
    ensures Trusted(s)
  {
  }

  lemma StepTrusted(s: Sys, a: Action)
    requires Trusted(s) && Enabled(s, a) && (a.Start? ==> CalmStart(s, a.slot))
    ensures Trusted(Next(s, a))
  {
    StepSafe(s, a);
    StepRuns(s, a);
    if a.Start? {
      StartKeepsOneOwnerExactly(s, a.slot, a.uuid, a.area, a.at);
    } else {
      StepShrinks(s, a);
      ShrinkKeepsOneOwner(s, Next(s, a));
    }
  }

  lemma {:induction false} RunTrusted(s: Sys, run: seq<Action>, t: Sys)
    requires Trusted(s) && CalmRun(s, run) && Reaches(s, run, t)
    ensures Trusted(t)
    decreases |run|
  {
    if run != [] {
      StepTrusted(s, run[0]);
      RunTrusted(Next(s, run[0]), run[1..], t);
    }
  }

  /** The run leaves the call of Episode `e` in progress and takes nothing from it that it still needs. */
  ghost predicate SparesCall(s: Sys, run: seq<Action>, e: EpisodeId, whole: bool)
    decreases |run|
  {
    run == [] || (Registered(s) && Enabled(s, run[0]) && LeavesCall(run[0], e) && Spares(s, run[0], e, whole)
                  && SparesCall(Next(s, run[0]), run[1..], e, whole))
  }

  lemma {:induction false} RunHolds(s: Sys, run: seq<Action>, t: Sys, e: EpisodeId, whole: bool)
    requires Trusted(s) && CalmRun(s, run) && Reaches(s, run, t)
    requires CallHolds(s, e, whole) && SparesCall(s, run, e, whole)
    ensures Trusted(t) && CallHolds(t, e, whole) && t.barriers[e].covered == s.barriers[e].covered
    decreases |run|
  {
    if run != [] {
      StepTrusted(s, run[0]);
      StepHolds(s, run[0], e, whole);
      RunHolds(Next(s, run[0]), run[1..], t, e, whole);
    }
  }

  /** The recordings of an Episode the two maps hold. */
  function Found(s: Sys, e: EpisodeId): set<EvidenceId> {
    OfEpisode(s.recordings, e).Values + OfEpisode(s.recoverable, e).Values
  }

  lemma CallKeepsWhatItFound(s: Sys, e: EpisodeId, run: seq<Action>, t: Sys, whole: bool)
    requires Trusted(s) && Enabled(s, BeginBarrier(e))
    requires var s' := Next(s, BeginBarrier(e)); CalmRun(s', run) && Reaches(s', run, t) && SparesCall(s', run, e, whole)
    ensures Trusted(t) && CallHolds(t, e, whole) && t.barriers[e].covered == Found(s, e)
  {
    StepTrusted(s, BeginBarrier(e));
    BeginHolds(s, e, whole);
    RunHolds(Next(s, BeginBarrier(e)), run, t, e, whole);
  }

  lemma ReturnedIsPublished(t: Sys, e: EpisodeId)
    requires Safe(t) && CallHolds(t, e, false) && t.barriers[e].Returned?
    ensures forall id | id in t.barriers[e].covered :: id in t.recs && t.recs[id].published && Linked(t.db, id, e)
  {
  }

  /** A finalizer call that returns has published every recording it found, unless one of them was taken out of
      the recoverable map, unpublished, while the call joined tasks; until it closes the Episode is finalizing. */
  lemma BarrierTheorem(s: Sys, e: EpisodeId, run: seq<Action>, t: Sys)
    requires Trusted(s) && Enabled(s, BeginBarrier(e))
    requires var s' := Next(s, BeginBarrier(e)); CalmRun(s', run) && Reaches(s', run, t) && SparesCall(s', run, e, false)
    ensures e in t.barriers && e < |t.db.episodes| && t.db.episodes[e].state.Finalizing?
    ensures t.barriers[e].Returned? ==> forall id | id in Found(s, e) ::
              id in t.recs && t.recs[id].published && Linked(t.db, id, e)
  {
    CallKeepsWhatItFound(s, e, run, t, false);
    if t.barriers[e].Returned? {
      ReturnedIsPublished(t, e);
    }
  }

  /** A finalizer call that raises keeps every unpublished recording it found recoverable, unless one was taken
      out of the recoverable map since the call began; the Episode is still finalizing. */
  lemma RaisedKeepsRecoverable(s: Sys, e: EpisodeId, run: seq<Action>, t: Sys)
    requires Trusted(s) && Enabled(s, BeginBarrier(e))
    requires var s' := Next(s, BeginBarrier(e)); CalmRun(s', run) && Reaches(s', run, t) && SparesCall(s', run, e, true)
    ensures e in t.barriers && e < |t.db.episodes| && t.db.episodes[e].state.Finalizing?
    ensures t.barriers[e].Raised? ==> forall id | id in Found(s, e) ::
              id in t.recs && id in t.disk && (t.recs[id].published || Holds(t.recoverable, t.disk[id].slot, id))
  {
    CallKeepsWhatItFound(s, e, run, t, true);
  }

  /** An Episode closes only when its finalizer call has returned. */
  lemma ClosesOnlyAfterReturn(s: Sys, a: Action, e: EpisodeId)
    requires Safe(s) && (e in s.barriers ==> CallHolds(s, e, false)) && Enabled(s, a) && e < |s.db.episodes|
    requires !s.db.episodes[e].state.Closed?
    requires e < |Next(s, a).db.episodes| && Next(s, a).db.episodes[e].state.Closed?
    ensures a.Close? && a.episode == e && s.barriers[e].Returned?
    ensures forall id | id in s.barriers[e].covered :: Linked(Next(s, a).db, id, e)
  {
    OnlyCloseCloses(s, a, e);
    ReturnedIsPublished(s, e);
    StepSafe(s, a);
  }

  /** Once an Episode is closed on a call that was spared, everything that call found is linked for good,
      whatever happens afterwards. */
  lemma ClosedMeansPublished(s: Sys, e: EpisodeId, run: seq<Action>, t: Sys, at: Time, later: seq<Action>, u: Sys)
    requires Trusted(s) && Enabled(s, BeginBarrier(e))
    requires var s' := Next(s, BeginBarrier(e)); CalmRun(s', run) && Reaches(s', run, t) && SparesCall(s', run, e, false)
    requires Enabled(t, Close(e, at)) && Registered(t) && Reaches(Next(t, Close(e, at)), later, u)
    ensures forall id | id in Found(s, e) :: Linked(u.db, id, e)
  {
    CallKeepsWhatItFound(s, e, run, t, false);
    ReturnedStaysLinked(t, e, at, later, u);
  }

  lemma ReturnedStaysLinked(t: Sys, e: EpisodeId, at: Time, later: seq<Action>, u: Sys)
    requires Safe(t) && CallHolds(t, e, false) && Enabled(t, Close(e, at)) && Reaches(Next(t, Close(e, at)), later, u)
    ensures forall id | id in t.barriers[e].covered :: Linked(u.db, id, e)
  {
    ReturnedIsPublished(t, e);
    CloseSafe(t, e, at);
    PublicationTheorem(Next(t, Close(e, at)), later, u);
  }

  ghost predicate SameStates(db: Db, db': Db) {
    |db'.episodes| == |db.episodes|
    && forall e | 0 <= e < |db.episodes| :: db'.episodes[e].state == db.episodes[e].state
  }

  lemma AttemptKeepsStates(s: Sys, id: EvidenceId, o: Outcome)
    requires Consistent(s.db) && Present(s, id)
    ensures SameStates(s.db, Attempted(s, id, o).db)
  {
    AttemptDbKeeps(s.db, id, s.disk[id], o);
  }

  lemma AttemptStepKeepsStates(s: Sys, a: Action)
    requires Safe(s) && Enabled(s, a) && Attempts(a)
    ensures SameStates(s.db, Next(s, a).db)
  {
    var id := if a.Drain? then s.barriers[a.episode].todo[0] else a.id;
    AttemptKeepsStates(s, id, a.outcome);
    assert Next(s, a).db == Attempted(s, id, a.outcome).db;
  }

  lemma CrashKeepsStates(s: Sys, inFlight: Option<EvidenceId>, n: nat)
    requires Safe(s) && Enabled(s, Crash(inFlight, n))
    ensures SameStates(s.db, Next(s, Crash(inFlight, n)).db)
  {
    if inFlight.Some? {
      AttemptKeepsStates(s, inFlight.value, Outcome(n, true, false, false));
    }
  }

  lemma OnlyCloseCloses(s: Sys, a: Action, e: EpisodeId)
    requires Safe(s) && Enabled(s, a) && e < |s.db.episodes| && !s.db.episodes[e].state.Closed?
    requires e < |Next(s, a).db.episodes| && Next(s, a).db.episodes[e].state.Closed?
    ensures a.Close? && a.episode == e
  {
    if Attempts(a) {
      AttemptStepKeepsStates(s, a);
    } else if a.Crash? {
      CrashKeepsStates(s, a.inFlight, a.commits);
    } else if a.Scan? || a.CrashInScan? {
      ScanFrame(s, a.order, a.known);
    } else if a.Engine? {
      EngineNeverCloses(s.db, a.commit, e);
    }
  }

  lemma EngineNeverCloses(db: Db, c: Commit, e: EpisodeId)
    requires EngineMay(db, c) && e < |db.episodes| && !db.episodes[e].state.Closed?
    ensures e < |Apply(db, c).episodes| && !Apply(db, c).episodes[e].state.Closed?
  {
  }

  /** After a calm run a restart hands back every unpublished workspace it should. */
  lemma CalmRestartFindsAll(s: Sys, order: seq<EvidenceId>, known: set<string>)
    requires Trusted(s) && Enabled(s, Scan(order, known))
    ensures forall id | Eligible(s, id, known) :: Holds(Next(s, Scan(order, known)).recoverable, s.disk[id].slot, id)
  {
    RestartFindsAllExactly(s, order, known);
    assert forall id | Eligible(s, id, known) :: Claims(s, id);
  }

  // ----- from the beginning --------------------------------------------------------------------------

  /** The barrier results for every calm run of a new recorder. */
  lemma BarrierFromInitial(first: Sys, before: seq<Action>, s: Sys, e: EpisodeId, run: seq<Action>, t: Sys)
    requires Initial(first) && CalmRun(first, before) && Reaches(first, before, s) && Registered(s)
    requires Enabled(s, BeginBarrier(e))
    requires var s' := Next(s, BeginBarrier(e)); CalmRun(s', run) && Reaches(s', run, t) && SparesCall(s', run, e, false)
    ensures e in t.barriers && e < |t.db.episodes| && t.db.episodes[e].state.Finalizing?
    ensures t.barriers[e].Returned? ==> forall id | id in Found(s, e) ::
              id in t.recs && t.recs[id].published && Linked(t.db, id, e)
    ensures t.barriers[e].Raised? && SparesCall(Next(s, BeginBarrier(e)), run, e, true) ==> forall id | id in Found(s, e) ::
              id in t.recs && id in t.disk && (t.recs[id].published || Holds(t.recoverable, t.disk[id].slot, id))
  {
    InitialTrusted(first);
    RunTrusted(first, before, s);
    BarrierTheorem(s, e, run, t);
    if SparesCall(Next(s, BeginBarrier(e)), run, e, true) {
      RaisedKeepsRecoverable(s, e, run, t);
    }
  }

  /** The restart result for every calm run of a new recorder, crashes included. */
  lemma RestartFromInitial(first: Sys, before: seq<Action>, s: Sys, order: seq<EvidenceId>, known: set<string>)
    requires Initial(first) && CalmRun(first, before) && Reaches(first, before, s) && Registered(s)
    requires Enabled(s, Scan(order, known))
    ensures forall id | Eligible(s, id, known) :: Holds(Next(s, Scan(order, known)).recoverable, s.disk[id].slot, id)
  {
    InitialTrusted(first);
    RunTrusted(first, before, s);
    CalmRestartFindsAll(s, order, known);
  }
}
