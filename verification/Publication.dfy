/** Exactly-once publication over whole runs of the recorder, with failures, retries and restarts. */
module Publication {
  import opened Domain
  import opened Store
  import opened Recorder

  /** A marker is gone, or a recording counts as published, only once its Evidence row exists and is
      linked to its Episode. */
  ghost predicate Published(s: Sys) {
    && (forall id | id in s.disk && !s.disk[id].marker :: Linked(s.db, id, s.disk[id].slot.episode))
    && (forall id | id in s.recs && id in s.disk && s.recs[id].published :: Linked(s.db, id, s.disk[id].slot.episode))
  }

  /** A finalizer call that has not closed its Episode finds it still finalizing. */
  ghost predicate BarriersFinalizing(s: Sys) {
    forall e | e in s.barriers :: e < |s.db.episodes| && s.db.episodes[e].state.Finalizing?
  }

  ghost predicate Safe(s: Sys) {
    Registered(s) && Consistent(s.db) && Published(s) && BarriersFinalizing(s)
  }

  /** What stays true of the durable state: workspaces keep their slot, a removed marker stays
      removed, and a linked Evidence row stays linked to the same Episode. */
  ghost predicate Durable(s: Sys, t: Sys) {
    && (forall id | id in s.disk :: id in t.disk && t.disk[id].slot == s.disk[id].slot
                                    && (t.disk[id].marker ==> s.disk[id].marker))
    && LinksKept(s.db, t.db)
  }

  ghost predicate LinksKept(db: Db, db': Db) {
    forall id | id in db.evidence ::
      id in db'.evidence && (db.evidence[id].episode.Some? ==> db'.evidence[id].episode == db.evidence[id].episode)
  }

  ghost predicate Reaches(s: Sys, run: seq<Action>, t: Sys)
    decreases |run|
  {
    if run == [] then s == t
    else Registered(s) && Enabled(s, run[0]) && Reaches(Next(s, run[0]), run[1..], t)
  }

  ghost predicate Initial(s: Sys) {
    s.disk == map[] && s.up && s.recordings == map[] && s.recoverable == map[] && s.recs == map[]
    && s.barriers == map[] && Consistent(s.db)
  }

  // ----- short runs -----------------------------------------------------------------------------

  ghost predicate Steps(s: Sys, a: Action, t: Sys) {
    Registered(s) && Enabled(s, a) && Next(s, a) == t
  }

  lemma ReachesConcat(s: Sys, p: seq<Action>, mid: Sys, q: seq<Action>, t: Sys)
    requires Reaches(s, p, mid) && Reaches(mid, q, t)
    ensures Reaches(s, p + q, t)
    decreases |p|
  {
    if p == [] {
      assert p + q == q;
    } else {
      ReachesConcat(Next(s, p[0]), p[1..], mid, q, t);
      assert (p + q)[1..] == p[1..] + q;
    }
  }

  lemma OneStep(s: Sys, a: Action)
    requires Registered(s) && Enabled(s, a)
    ensures Reaches(s, [a], Next(s, a))
  {
    assert Reaches(Next(s, a), [a][1..], Next(s, a));
  }

  lemma TwoSteps(s: Sys, a: Action, mid: Sys, b: Action, t: Sys)
    requires Steps(s, a, mid) && Steps(mid, b, t)
    ensures Reaches(s, [a, b], t)
  {
    OneStep(s, a);
    OneStep(mid, b);
    ReachesConcat(s, [a], mid, [b], t);
    assert [a] + [b] == [a, b];
  }

  // ----- transactions -----------------------------------------------------------------------

  lemma ApplyKeepsLinks(db: Db, c: Commit)
    ensures LinksKept(db, Apply(db, c))
  {
  }

  /** A publication attempt, cut anywhere, only adds or links one Evidence row. */
  lemma AttemptDbKeeps(db: Db, id: EvidenceId, w: Workspace, o: Outcome)
    requires Consistent(db)
    ensures var t := AttemptDb(db, id, w, o);
      && Consistent(t) && |t.episodes| == |db.episodes|
      && (forall e | 0 <= e < |db.episodes| :: t.episodes[e].state == db.episodes[e].state)
      && LinksKept(db, t)
  {
    var p := SinkProgram(db, id, w);
    var n := if o.raises && o.commits <= |p| then o.commits else |p|;
    assert RunTo(db, p, 0) == db;
    if n >= 1 {
      CommitKeeps(db, p[0]);
      assert RunTo(db, p, 1) == Apply(db, p[0]);
    }
    if n >= 2 {
      CommitKeeps(RunTo(db, p, 1), p[1]);
      assert RunTo(db, p, 2) == Apply(RunTo(db, p, 1), p[1]);
    }
  }

  lemma CommitKeeps(db: Db, c: Commit)
    requires Consistent(db) && (c.CreateEvidence? || c.LinkEvidence?) && WellFormed(db, c)
    ensures var t := Apply(db, c);
      && Consistent(t) && |t.episodes| == |db.episodes|
      && (forall e | 0 <= e < |db.episodes| :: t.episodes[e].state == db.episodes[e].state)
      && LinksKept(db, t)
  {
    ApplyConsistent(db, c);
    ApplyKeepsLinks(db, c);
  }

  // ----- one step -------------------------------------------------------------------------------

  /** Nothing durable differs, and no recording counts as published that did not before. */
  ghost predicate MapsOnly(s: Sys, t: Sys) {
    && t.db == s.db
    && (forall id | id in s.disk :: id in t.disk && t.disk[id] == s.disk[id])
    && (forall id | id in t.disk && id !in s.disk :: t.disk[id].marker)
    && (forall id | id in t.recs && t.recs[id].published :: id in s.recs && id in s.disk && s.recs[id].published)
  }

  lemma MapsOnlyPublished(s: Sys, t: Sys)
    requires Published(s) && MapsOnly(s, t)
    ensures Published(t) && Durable(s, t)
  {
  }

  /** A step that only moves recordings between maps is safe once they are filed properly. */
  lemma MapsOnlySafe(s: Sys, t: Sys)
    requires Safe(s) && MapsOnly(s, t) && Registered(t) && BarriersFinalizing(t)
    ensures Safe(t) && Durable(s, t)
  {
    MapsOnlyPublished(s, t);
  }

  lemma DurableTransitive(s: Sys, mid: Sys, t: Sys)
    requires Durable(s, mid) && Durable(mid, t)
    ensures Durable(s, t)
  {
  }

  lemma AttemptedPublished(s: Sys, id: EvidenceId, o: Outcome)
    requires Present(s, id) && Consistent(s.db) && Published(s)
    ensures Published(Attempted(s, id, o)) && Durable(s, Attempted(s, id, o))
  {
    AttemptDbKeeps(s.db, id, s.disk[id], o);
    ConcludedPublished(s, id, AttemptDb(s.db, id, s.disk[id], o), Persists(s.db, id, s.disk[id], o), o.removes);
  }

  lemma ConcludedPublished(s: Sys, id: EvidenceId, db: Db, persisted: bool, removes: bool)
    requires Present(s, id) && Published(s) && LinksKept(s.db, db)
    requires persisted ==> Linked(db, id, s.disk[id].slot.episode)
    ensures Published(Concluded(s, id, db, persisted, removes)) && Durable(s, Concluded(s, id, db, persisted, removes))
  {
    var t := Concluded(s, id, db, persisted, removes);
    forall i | i in t.disk
      ensures !t.disk[i].marker || (i in t.recs && t.recs[i].published) ==> Linked(t.db, i, t.disk[i].slot.episode)
    {
      assert i != id ==> t.disk[i] == s.disk[i] && (i in t.recs ==> t.recs[i] == s.recs[i]);
    }
  }

  lemma AttemptedSafe(s: Sys, id: EvidenceId, o: Outcome)
    requires Safe(s) && Present(s, id)
    ensures Safe(Attempted(s, id, o)) && Durable(s, Attempted(s, id, o))
  {
    AttemptedPublished(s, id, o);
    AttemptedRegistered(s, id, o);
    AttemptedDb(s, id, o);
  }

  lemma AttemptedDb(s: Sys, id: EvidenceId, o: Outcome)
    requires Consistent(s.db) && BarriersFinalizing(s) && Present(s, id)
    ensures Consistent(Attempted(s, id, o).db) && BarriersFinalizing(Attempted(s, id, o))
  {
    AttemptDbKeeps(s.db, id, s.disk[id], o);
  }

  lemma AttemptedRegistered(s: Sys, id: EvidenceId, o: Outcome)
    requires Registered(s) && Present(s, id)
    ensures var t := Attempted(s, id, o);
      Registered(t) && t.recs.Keys == s.recs.Keys && t.disk.Keys == s.disk.Keys
      && (forall i | i in s.disk :: t.disk[i].slot == s.disk[i].slot)
  {
    ConcludedRegistered(s, id, AttemptDb(s.db, id, s.disk[id], o), Persists(s.db, id, s.disk[id], o), o.removes);
  }

  lemma ConcludedRegistered(s: Sys, id: EvidenceId, db: Db, persisted: bool, removes: bool)
    requires Registered(s) && Present(s, id)
    ensures var t := Concluded(s, id, db, persisted, removes);
      Registered(t) && t.recs.Keys == s.recs.Keys && t.disk.Keys == s.disk.Keys
      && (forall i | i in s.disk :: t.disk[i].slot == s.disk[i].slot)
  {
  }

  lemma ScanOneFiled(s: Sys, id: EvidenceId, known: set<string>)
    requires Filed(s)
    ensures Filed(ScanOne(s, id, known))
  {
    if id in s.disk && s.disk[id].marker {
      MarkerGoneFiled(s, id);
      HandedBackFiled(s, id);
    }
  }

  lemma MarkerGoneFiled(s: Sys, id: EvidenceId)
    requires Filed(s) && id in s.disk
    ensures Filed(s.(disk := s.disk[id := s.disk[id].(marker := false)]))
  {
  }

  lemma HandedBackFiled(s: Sys, id: EvidenceId)
    requires Filed(s) && id in s.disk
    ensures Filed(s.(recoverable := s.recoverable[s.disk[id].slot := id], recs := s.recs[id := Recording(false, NoTask)]))
  {
  }

  lemma ScanOnePublished(s: Sys, id: EvidenceId, known: set<string>)
    requires Published(s)
    ensures Published(ScanOne(s, id, known))
  {
  }

  /** The scan writes nothing but the markers of published workspaces. */
  ghost predicate DiskOnly(s: Sys, t: Sys) {
    t.db == s.db && t.barriers == s.barriers && t.up == s.up
    && forall id | id in s.disk :: id in t.disk && t.disk[id].slot == s.disk[id].slot
                                   && (t.disk[id].marker ==> s.disk[id].marker)
  }

  lemma ScanOneDiskOnly(s: Sys, id: EvidenceId, known: set<string>)
    ensures DiskOnly(s, ScanOne(s, id, known))
  {
  }

  lemma ScannedSafe(s: Sys, order: seq<EvidenceId>, known: set<string>)
    requires Filed(s) && Published(s)
    ensures Filed(Scanned(s, order, known)) && Published(Scanned(s, order, known)) && DiskOnly(s, Scanned(s, order, known))
    decreases |order|
  {
    if order != [] {
      var n := |order| - 1;
      ScannedSafe(s, order[..n], known);
      ScanOneFiled(Scanned(s, order[..n], known), order[n], known);
      ScanOnePublished(Scanned(s, order[..n], known), order[n], known);
      ScanOneDiskOnly(Scanned(s, order[..n], known), order[n], known);
    }
  }

  predicate OnlyMoves(a: Action) {
    a.Start? || a.Park? || a.PopSelf? || a.NoticeStop? || a.TaskFails? || a.Take? || a.BeginBarrier? || a.FinishDrain? || a.Join?
  }

  /** Starting and stopping tasks and barriers touches nothing durable. */
  lemma MovesAreMapsOnly(s: Sys, a: Action)
    requires Registered(s) && Enabled(s, a) && OnlyMoves(a)
    ensures MapsOnly(s, Next(s, a))
  {
  }

  lemma StartRegistered(s: Sys, slot: Slot, uuid: EvidenceId, area: Area, at: Time)
    requires Registered(s) && s.up && uuid !in s.disk
    ensures Registered(Started(s, slot, uuid, area, at))
  {
  }

  lemma ParkRegistered(s: Sys, id: EvidenceId)
    requires Registered(s) && Present(s, id)
    ensures Registered(Parked(s, id))
  {
  }

  lemma JoinFiled(s: Sys, e: EpisodeId, order: seq<EvidenceId>)
    requires Filed(s) && e in s.barriers && s.barriers[e].Joining? && Lists(order, OfEpisode(s.recoverable, e).Values)
    ensures Filed(Joined(s, e, order))
  {
    forall id | id in order ensures id in s.recs && id in s.disk && s.disk[id].slot.episode == e {
      assert id in OfEpisode(s.recoverable, e).Values;
    }
    if exists slot | slot in s.barriers[e].waiting :: TaskFailed(s, slot, s.barriers[e].waiting[slot]) {
      RaisedFiled(s, e);
    }
  }

  lemma RaisedFiled(s: Sys, e: EpisodeId)
    requires Filed(s) && e in s.barriers && s.barriers[e].Joining?
    ensures Filed(s.(recoverable := s.recoverable + Unsaved(s, s.barriers[e].waiting),
                     barriers := s.barriers[e := Raised(s.barriers[e].covered)]))
  {
    assert BarrierFiled(s, e, s.barriers[e]);
  }

  lemma BarrierMoveFiled(s: Sys, a: Action)
    requires Filed(s) && Enabled(s, a) && (a.BeginBarrier? || a.FinishDrain?)
    ensures Filed(Next(s, a))
  {
  }

  lemma TaskMoveFiled(s: Sys, a: Action)
    requires Filed(s) && Enabled(s, a) && (a.PopSelf? || a.NoticeStop? || a.TaskFails? || a.Take?)
    ensures Filed(Next(s, a))
  {
  }

  lemma MovesRegistered(s: Sys, a: Action)
    requires Registered(s) && Enabled(s, a) && OnlyMoves(a)
    ensures Registered(Next(s, a))
  {
    match a
    case Start(slot, uuid, area, at) => StartRegistered(s, slot, uuid, area, at);
    case Park(id) => ParkRegistered(s, id);
    case Join(e, order) => JoinFiled(s, e, order);
    case BeginBarrier(_) => BarrierMoveFiled(s, a);
    case FinishDrain(_) => BarrierMoveFiled(s, a);
    case _ => TaskMoveFiled(s, a);
  }

  lemma MovesKeepBarriers(s: Sys, a: Action)
    requires BarriersFinalizing(s) && Registered(s) && Enabled(s, a) && OnlyMoves(a)
    ensures BarriersFinalizing(Next(s, a))
  {
  }

  lemma MovesSafe(s: Sys, a: Action)
    requires Safe(s) && Enabled(s, a) && OnlyMoves(a)
    ensures Safe(Next(s, a)) && Durable(s, Next(s, a))
  {
    MovesAreMapsOnly(s, a);
    MovesRegistered(s, a);
    MovesKeepBarriers(s, a);
    MapsOnlySafe(s, Next(s, a));
  }

  /** What follows an attempt only moves recordings. */
  lemma TaskDoneSafe(s: Sys, id: EvidenceId, succeeded: bool)
    requires Safe(s) && Present(s, id)
    ensures Safe(TaskDone(s, id, succeeded)) && Durable(s, TaskDone(s, id, succeeded))
  {
    MapsOnlySafe(s, TaskDone(s, id, succeeded));
  }

  lemma DrainDoneSafe(s: Sys, e: EpisodeId, succeeded: bool)
    requires Safe(s) && e in s.barriers && s.barriers[e].Draining? && s.barriers[e].todo != []
    requires s.barriers[e].todo[0] in s.disk
    ensures Safe(DrainDone(s, e, succeeded)) && Durable(s, DrainDone(s, e, succeeded))
  {
    DrainDoneRegistered(s, e, succeeded);
    MapsOnlySafe(s, DrainDone(s, e, succeeded));
  }

  lemma DrainDoneRegistered(s: Sys, e: EpisodeId, succeeded: bool)
    requires Registered(s) && e in s.barriers && s.barriers[e].Draining? && s.barriers[e].todo != []
    requires s.barriers[e].todo[0] in s.disk
    ensures Registered(DrainDone(s, e, succeeded))
  {
    assert BarrierFiled(s, e, s.barriers[e]);
    assert forall id | id in s.barriers[e].todo[1..] :: id in s.barriers[e].todo;
  }

  lemma TaskPublishedSafe(s: Sys, id: EvidenceId, o: Outcome)
    requires Safe(s) && Present(s, id)
    ensures Safe(TaskPublished(s, id, o)) && Durable(s, TaskPublished(s, id, o))
  {
    var mid := Attempted(s, id, o);
    AttemptedSafe(s, id, o);
    TaskDoneSafe(mid, id, Succeeds(s, id, o));
    DurableTransitive(s, mid, TaskPublished(s, id, o));
  }

  lemma DrainedSafe(s: Sys, e: EpisodeId, o: Outcome)
    requires Safe(s) && e in s.barriers && s.barriers[e].Draining? && s.barriers[e].todo != []
    requires Present(s, s.barriers[e].todo[0])
    ensures Safe(Drained(s, e, o)) && Durable(s, Drained(s, e, o))
  {
    var id := s.barriers[e].todo[0];
    var mid := Attempted(s, id, o);
    AttemptedSafe(s, id, o);
    AttemptKeepsCalls(s, id, o);
    DrainDoneSafe(mid, e, Succeeds(s, id, o));
    DurableTransitive(s, mid, Drained(s, e, o));
  }

  lemma AttemptKeepsCalls(s: Sys, id: EvidenceId, o: Outcome)
    requires Present(s, id)
    ensures Attempted(s, id, o).barriers == s.barriers && Attempted(s, id, o).disk.Keys == s.disk.Keys
  {
  }

  lemma PublishTakenSafe(s: Sys, id: EvidenceId, o: Outcome)
    requires Safe(s) && Present(s, id)
    ensures var t := TaskDone(Attempted(s, id, o), id, true); Safe(t) && Durable(s, t)
  {
    var mid := Attempted(s, id, o);
    AttemptedSafe(s, id, o);
    TaskDoneSafe(mid, id, true);
    DurableTransitive(s, mid, TaskDone(mid, id, true));
  }

  lemma EngineSafe(s: Sys, c: Commit)
    requires Safe(s) && EngineMay(s.db, c)
    ensures Safe(s.(db := Apply(s.db, c))) && Durable(s, s.(db := Apply(s.db, c)))
  {
    ApplyConsistent(s.db, c);
    ApplyKeepsLinks(s.db, c);
    FinalizingStays(s.db, c);
    DbOnlyPublished(s, s.(db := Apply(s.db, c)));
  }

  lemma DbOnlyPublished(s: Sys, t: Sys)
    requires Published(s) && t.disk == s.disk && t.recs == s.recs && LinksKept(s.db, t.db)
    ensures Published(t) && Durable(s, t)
  {
  }

  lemma FinalizingStays(db: Db, c: Commit)
    requires EngineMay(db, c)
    ensures |db.episodes| <= |Apply(db, c).episodes|
    ensures forall e | 0 <= e < |db.episodes| && db.episodes[e].state.Finalizing? :: Apply(db, c).episodes[e].state.Finalizing?
  {
  }

  lemma CloseSafe(s: Sys, e: EpisodeId, at: Time)
    requires Safe(s) && Enabled(s, Close(e, at))
    ensures Safe(Next(s, Close(e, at))) && Durable(s, Next(s, Close(e, at)))
  {
    ApplyConsistent(s.db, MarkClosed(e, at));
    ApplyKeepsLinks(s.db, MarkClosed(e, at));
    DbOnlyPublished(s, Next(s, Close(e, at)));
    CloseFrame(s, e, at);
  }

  lemma CloseFrame(s: Sys, e: EpisodeId, at: Time)
    requires Registered(s) && BarriersFinalizing(s) && Enabled(s, Close(e, at))
    ensures Registered(Next(s, Close(e, at))) && BarriersFinalizing(Next(s, Close(e, at)))
  {
  }

  lemma CrashSafe(s: Sys)
    requires Published(s) && Consistent(s.db)
    ensures Safe(Crashed(s)) && Durable(s, Crashed(s))
  {
  }

  lemma RestartSafe(s: Sys, a: Action)
    requires Safe(s) && Enabled(s, a) && (a.Crash? || a.Scan? || a.CrashInScan?)
    ensures Safe(Next(s, a)) && Durable(s, Next(s, a))
  {
    match a
    case Crash(inFlight, n) =>
      if inFlight.Some? {
        AttemptedSafe(s, inFlight.value, Outcome(n, true, false, false));
        CrashSafe(Attempted(s, inFlight.value, Outcome(n, true, false, false)));
      } else {
        CrashSafe(s);
      }
    case Scan(order, known) =>
      ScannedSafe(s, order, known);
      assert Published(Next(s, a));
    case CrashInScan(order, known) =>
      ScannedSafe(s, order, known);
      CrashSafe(Scanned(s, order, known));
  }

  lemma StepSafe(s: Sys, a: Action)
    requires Safe(s) && Enabled(s, a)
    ensures Safe(Next(s, a)) && Durable(s, Next(s, a))
  {
    match a
    case Publish(id, o) => TaskPublishedSafe(s, id, o);
    case PublishTaken(id, o) => PublishTakenSafe(s, id, o);
    case Drain(e, o) => DrainedSafe(s, e, o);
    case Engine(c) => EngineSafe(s, c);
    case Close(e, at) => CloseSafe(s, e, at);
    case Crash(_, _) => RestartSafe(s, a);
    case Scan(_, _) => RestartSafe(s, a);
    case CrashInScan(_, _) => RestartSafe(s, a);
    case _ => MovesSafe(s, a);
  }

  // ----- whole runs ---------------------------------------------------------------------------

  /** Along any run a marker goes only after its Evidence is linked, and both stay that way. */
  lemma {:induction false} PublicationTheorem(s: Sys, run: seq<Action>, t: Sys)
    requires Safe(s) && Reaches(s, run, t)
    ensures Safe(t) && Durable(s, t)
    decreases |run|
  {
    if run != [] {
      StepSafe(s, run[0]);
      PublicationTheorem(Next(s, run[0]), run[1..], t);
    }
  }

  /** The workspaces of an Episode that have an Evidence row linked to it. */
  function Outputs(s: Sys, e: EpisodeId): set<EvidenceId> {
    set id | id in s.disk && s.disk[id].slot.episode == e && Linked(s.db, id, e)
  }

  /** Workspaces of other Episodes whose Evidence row was placed in this one. */
  function Misplaced(s: Sys, e: EpisodeId): set<EvidenceId> {
    set id | id in s.disk && s.disk[id].slot.episode != e && Linked(s.db, id, e)
  }

  /** In any state a run reaches, an Episode counts each of its published workspaces exactly once; any other
      workspace it counts is misplaced, unpublished, and still marked. */
  lemma {:induction false} EachOutputCountedOnce(s: Sys, run: seq<Action>, t: Sys, e: EpisodeId)
    requires Initial(s) && Reaches(s, run, t) && e < |t.db.episodes|
    ensures forall id | id in t.disk && t.disk[id].slot.episode == e && !t.disk[id].marker :: id in Outputs(t, e)
    ensures forall id | id in Misplaced(t, e) :: t.disk[id].marker && (id in t.recs ==> !t.recs[id].published)
    ensures t.db.episodes[e].evidenceCount
            == |Outputs(t, e)| + |Misplaced(t, e)| + |Attachments(t.db.evidence, e) - t.disk.Keys|
  {
    PublicationTheorem(s, run, t);
    AttachmentsSplit(t, e);
  }

  lemma AttachmentsSplit(t: Sys, e: EpisodeId)
    requires Published(t) && EvidenceConsistent(t.db) && e < |t.db.episodes|
    ensures forall id | id in t.disk && t.disk[id].slot.episode == e && !t.disk[id].marker :: id in Outputs(t, e)
    ensures forall id | id in Misplaced(t, e) :: t.disk[id].marker && (id in t.recs ==> !t.recs[id].published)
    ensures t.db.episodes[e].evidenceCount
            == |Outputs(t, e)| + |Misplaced(t, e)| + |Attachments(t.db.evidence, e) - t.disk.Keys|
  {
    var all, ours, astray := Attachments(t.db.evidence, e), Outputs(t, e), Misplaced(t, e);
    assert all - t.disk.Keys == all - ours - astray;
    assert ours <= all && astray <= all - ours;
  }

  // ----- what can still be published ----------------------------------------------------------------

  /** The Episode still accepts recorder output, and the Evidence row, if any, is in no other Episode. */
  predicate Publishable(db: Db, id: EvidenceId, w: Workspace) {
    Linked(db, id, w.slot.episode)
    || (AcceptsEvidence(db, w.slot.episode, true) && (id in db.evidence ==> db.evidence[id].episode.None?))
  }

  /** Some attempt can publish the workspace exactly when it is publishable; then one that is not cut off does. */
  lemma PublishableExactly(db: Db, id: EvidenceId, w: Workspace)
    ensures (exists o :: Persists(db, id, w, o)) <==> Publishable(db, id, w)
    ensures forall o: Outcome | Publishable(db, id, w) && !o.raises :: Persists(db, id, w, o)
  {
    var p := SinkProgram(db, id, w);
    RunShort(db, p);
    forall o: Outcome | !o.raises ensures Persists(db, id, w, o) <==> Publishable(db, id, w) {
      assert AttemptDb(db, id, w, o) == Run(db, p);
    }
    var whole := Outcome(0, false, true, true);
    assert Persists(db, id, w, whole) <==> Publishable(db, id, w);
  }

  /** The Evidence row of the workspace is in another Episode. */
  predicate Astray(s: Sys, id: EvidenceId) {
    id in s.disk && id in s.db.evidence && s.db.evidence[id].episode.Some?
    && s.db.evidence[id].episode != Some(s.disk[id].slot.episode)
  }

  /** A workspace whose row went astray is never published again, in any run: it keeps its marker, and every
      attempt fails. */
  lemma AstrayForever(s: Sys, run: seq<Action>, t: Sys, id: EvidenceId)
    requires Safe(s) && Reaches(s, run, t) && Astray(s, id)
    ensures Astray(t, id) && t.disk[id].marker && !Publishable(t.db, id, t.disk[id])
    ensures Present(t, id) ==> forall o :: !Succeeds(t, id, o)
  {
    PublicationTheorem(s, run, t);
    PublishableExactly(t.db, id, t.disk[id]);
  }

  /** How a row goes astray: the attempt is cut off after it has created the row, and the engine places the
      orphan in another open Episode before the next attempt. */
  lemma CutAttemptCanGoAstray(s: Sys, id: EvidenceId, other: EpisodeId)
    requires Safe(s) && Present(s, id) && s.recs[id].task.Publishing? && !s.recs[id].published && id !in s.db.evidence
    requires other < |s.db.episodes| && s.db.episodes[other].Open() && other != s.disk[id].slot.episode
    ensures exists run, t :: Reaches(s, run, t) && Astray(t, id)
  {
    var cut, place := Publish(id, Outcome(1, true, false, false)), Engine(LinkEvidence(id, other, false));
    CutTaskLeavesOrphan(s, id);
    OrphanCanBePlaced(Next(s, cut), id, other);
    TwoSteps(s, cut, Next(s, cut), place, Next(Next(s, cut), place));
  }

  lemma CutTaskLeavesOrphan(s: Sys, id: EvidenceId)
    requires Registered(s) && Present(s, id) && s.recs[id].task.Publishing? && !s.recs[id].published && id !in s.db.evidence
    ensures var t := Next(s, Publish(id, Outcome(1, true, false, false)));
      && Registered(t) && t.up && t.disk == s.disk && t.db.episodes == s.db.episodes
      && id in t.db.evidence && t.db.evidence[id].episode.None?
  {
    var o := Outcome(1, true, false, false);
    CutAttemptCreates(s, id);
    AttemptedRegistered(s, id, o);
    TaskDoneRegistered(Attempted(s, id, o), id, Succeeds(s, id, o));
  }

  lemma TaskDoneRegistered(s: Sys, id: EvidenceId, succeeded: bool)
    requires Registered(s) && Present(s, id)
    ensures Registered(TaskDone(s, id, succeeded))
  {
  }

  lemma OrphanCanBePlaced(s: Sys, id: EvidenceId, other: EpisodeId)
    requires Registered(s) && s.up && id in s.disk && id in s.db.evidence && s.db.evidence[id].episode.None?
    requires other < |s.db.episodes| && s.db.episodes[other].Open() && other != s.disk[id].slot.episode
    ensures var place := Engine(LinkEvidence(id, other, false)); Enabled(s, place) && Astray(Next(s, place), id)
  {
  }

  lemma CutAttemptCreates(s: Sys, id: EvidenceId)
    requires Present(s, id) && !s.recs[id].published && id !in s.db.evidence
    ensures var o := Outcome(1, true, false, false);
      Attempted(s, id, o).disk == s.disk
      && Attempted(s, id, o).db == Apply(s.db, CreateEvidence(id, s.disk[id].Output().(episode := None)))
  {
    var p := SinkProgram(s.db, id, s.disk[id]);
    assert RunTo(s.db, p, 0) == s.db && RunTo(s.db, p, 1) == Apply(s.db, p[0]);
  }

  /** Attempts that never get anywhere, and that go all the way. */
  const FAILS := Outcome(0, true, false, false)
  const SUCCEEDS := Outcome(0, false, true, true)

  lemma FailedAttempt(s: Sys, id: EvidenceId)
    requires Present(s, id)
    ensures Attempted(s, id, FAILS) == s && Succeeds(s, id, FAILS) == s.recs[id].published
  {
    assert RunTo(s.db, SinkProgram(s.db, id, s.disk[id]), 0) == s.db;
  }

  // ----- what a restart finds -----------------------------------------------------------------

  /** A workspace the restart scan should hand back: unpublished, of an Episode not closed, of a
      Device still configured. */
  predicate Eligible(s: Sys, id: EvidenceId, known: set<string>) {
    id in s.disk && s.disk[id].marker
    && var slot := s.disk[id].slot;
       slot.episode < |s.db.episodes| && !s.db.episodes[slot.episode].Finished()
       && !Linked(s.db, id, slot.episode) && slot.device in known
  }

  lemma ScanOneFrame(t: Sys, id: EvidenceId, known: set<string>)
    ensures ScanOne(t, id, known).db == t.db
    ensures ScanOne(t, id, known).disk
            == if id in t.disk && MarkerStale(t, id) then t.disk[id := t.disk[id].(marker := false)] else t.disk
  {
    if id in t.disk && MarkerStale(t, id) && !t.disk[id].marker {
      assert t.disk[id := t.disk[id].(marker := false)] == t.disk;
    }
  }

  lemma {:induction false} ScanFrame(s: Sys, order: seq<EvidenceId>, known: set<string>)
    ensures var t := Scanned(s, order, known);
      && t.db == s.db && t.disk.Keys == s.disk.Keys
      && forall id | id in s.disk ::
           t.disk[id] == if id in order && MarkerStale(s, id) then s.disk[id].(marker := false) else s.disk[id]
    decreases |order|
  {
    if order != [] {
      var n := |order| - 1;
      ScanFrame(s, order[..n], known);
      ScanOneFrame(Scanned(s, order[..n], known), order[n], known);
      assert order == order[..n] + [order[n]];
    }
  }

  /** Visiting a workspace hands it back exactly when it is eligible. */
  lemma ScanOneRecovers(s: Sys, t: Sys, id: EvidenceId, known: set<string>)
    requires t.db == s.db && t.disk.Keys == s.disk.Keys
    requires forall i | i in s.disk ::
               t.disk[i] == s.disk[i] || (MarkerStale(s, i) && t.disk[i] == s.disk[i].(marker := false))
    ensures ScanOne(t, id, known).recoverable
            == if Eligible(s, id, known) then t.recoverable[s.disk[id].slot := id] else t.recoverable
  {
  }

  lemma {:induction false} ScanFinds(s: Sys, order: seq<EvidenceId>, known: set<string>)
    requires s.recoverable == map[]
    ensures var r := Scanned(s, order, known).recoverable;
      && (forall slot | slot in r :: Eligible(s, r[slot], known) && s.disk[r[slot]].slot == slot)
      && (forall id | id in order && Eligible(s, id, known) :: s.disk[id].slot in r)
    decreases |order|
  {
    if order != [] {
      var n := |order| - 1;
      ScanFinds(s, order[..n], known);
      ScanFrame(s, order[..n], known);
      ScanOneRecovers(s, Scanned(s, order[..n], known), order[n], known);
      assert order == order[..n] + [order[n]];
    }
  }

  /** Published, but interrupted before the marker was removed. */
  predicate MarkerStale(s: Sys, id: EvidenceId)
    requires id in s.disk
  {
    var e := s.disk[id].slot.episode;
    e < |s.db.episodes| && !s.db.episodes[e].Finished() && Linked(s.db, id, e)
  }

  /** A restart hands back every unpublished workspace exactly when no two of them share a slot. */
  lemma {:induction false} RestartFindsAllExactly(s: Sys, order: seq<EvidenceId>, known: set<string>)
    requires Safe(s) && s.recoverable == map[] && Enabled(s, Scan(order, known))
    ensures var t := Next(s, Scan(order, known));
      (forall id | Eligible(s, id, known) :: Holds(t.recoverable, s.disk[id].slot, id))
      <==> forall i, j | Eligible(s, i, known) && Eligible(s, j, known) && s.disk[i].slot == s.disk[j].slot :: i == j
    ensures var t := Next(s, Scan(order, known));
      forall id | id in s.disk && MarkerStale(s, id) :: id in t.disk && !t.disk[id].marker
  {
    ScanFinds(s, order, known);
    ScanFrame(s, order, known);
  }
}
