/** The recorder as a protocol: capture tasks, publication attempts, the finalization barrier and
    restarts, interleaved step by step.  A workspace is named by the Evidence id fixed when it is
    created; its recovery marker is the file whose removal completes publication. */
module Recorder {
  import opened Domain
  import opened Store
  import Lifecycle

  datatype Slot = Slot(episode: EpisodeId, device: string)

  /** A recording workspace on disk. */
  datatype Workspace = Workspace(slot: Slot, area: Area, start: Time, marker: bool)
  {
    function Output(): Evidence {
      Evidence(area, start, Some(slot.episode))
    }
  }

  /** The capture task of a recording.  `Publishing` has left its loop and is about to publish; `Taken` was
      taken out of the recoverable map by startup, which publishes it itself. */
  datatype Task = NoTask | Capturing | Publishing | Taken | Ended | Failed

  datatype Recording = Recording(published: bool, task: Task)
  {
    predicate Running() {
      task.Capturing? || task.Publishing?
    }
  }

  /** One call of the finalizer for an Episode, with the recordings it found when it was called. */
  datatype Barrier =
    | Joining(covered: set<EvidenceId>, waiting: map<Slot, EvidenceId>)
    | Draining(covered: set<EvidenceId>, todo: seq<EvidenceId>)
    | Returned(covered: set<EvidenceId>)
    | Raised(covered: set<EvidenceId>)

  datatype Sys = Sys(
    db: Db,
    disk: map<EvidenceId, Workspace>,
    up: bool,
    recordings: map<Slot, EvidenceId>,
    recoverable: map<Slot, EvidenceId>,
    recs: map<EvidenceId, Recording>,
    barriers: map<EpisodeId, Barrier>)

  /** How one publication attempt goes: how many transactions commit before the sink raises, if it
      raises, whether the marker could be removed afterwards, and whether the journal took the entry. */
  datatype Outcome = Outcome(commits: nat, raises: bool, removes: bool, journals: bool)

  datatype Action =
    | Start(slot: Slot, uuid: EvidenceId, area: Area, at: Time)
    | Park(id: EvidenceId)
    | PopSelf(id: EvidenceId)
    | NoticeStop(id: EvidenceId)
    | Publish(id: EvidenceId, outcome: Outcome)
    | TaskFails(id: EvidenceId)
    | Take(id: EvidenceId)
    | PublishTaken(id: EvidenceId, outcome: Outcome)
    | BeginBarrier(episode: EpisodeId)
    | Join(episode: EpisodeId, order: seq<EvidenceId>)
    | Drain(episode: EpisodeId, outcome: Outcome)
    | FinishDrain(episode: EpisodeId)
    | Close(episode: EpisodeId, endedAt: Time)
    | Engine(commit: Commit)
    | Crash(inFlight: Option<EvidenceId>, commits: nat)
    | Scan(order: seq<EvidenceId>, known: set<string>)
    | CrashInScan(order: seq<EvidenceId>, known: set<string>)

  predicate Linked(db: Db, id: EvidenceId, e: EpisodeId) {
    id in db.evidence && db.evidence[id].episode == Some(e)
  }

  predicate Holds(m: map<Slot, EvidenceId>, slot: Slot, id: EvidenceId) {
    slot in m && m[slot] == id
  }

  // ----- publication ------------------------------------------------------------------------

  /** What the Evidence sink commits for a finished workspace. */
  function SinkProgram(db: Db, id: EvidenceId, w: Workspace): seq<Commit> {
    var e := w.slot.episode;
    var create := if id in db.evidence then [] else [CreateEvidence(id, w.Output().(episode := None))];
    var link := if AcceptsEvidence(db, e, true) && (id in db.evidence ==> db.evidence[id].episode.None?)
                then [LinkEvidence(id, e, true)] else [];
    create + link
  }

  /** It is what the engine commits for Evidence that names its Episode. */
  lemma SinkProgramIsEvidenceProgram(c: Lifecycle.Core, id: EvidenceId, w: Workspace, now: Time)
    ensures SinkProgram(c.db, id, w) == Lifecycle.EvidenceProgram(c, id, w.Output(), true, now)
  {
  }

  function AttemptDb(db: Db, id: EvidenceId, w: Workspace, o: Outcome): Db {
    var p := SinkProgram(db, id, w);
    RunTo(db, p, if o.raises && o.commits <= |p| then o.commits else |p|)
  }

  /** The sink returned, and what it stored belongs to the workspace's Episode. */
  predicate Persists(db: Db, id: EvidenceId, w: Workspace, o: Outcome) {
    !o.raises && Linked(AttemptDb(db, id, w, o), id, w.slot.episode)
  }

  predicate Present(s: Sys, id: EvidenceId) {
    s.up && id in s.recs && id in s.disk
  }

  /** The sink has left database `db`; if it persisted the output, the recording counts as published, and
      the marker goes if it can be removed. */
  function Concluded(s: Sys, id: EvidenceId, db: Db, persisted: bool, removes: bool): Sys
    requires Present(s, id)
  {
    if persisted then
      s.(db := db, recs := s.recs[id := s.recs[id].(published := true)],
         disk := if removes then s.disk[id := s.disk[id].(marker := false)] else s.disk)
    else s.(db := db)
  }

  /** One publication attempt; nothing happens once the recording is published. */
  function Attempted(s: Sys, id: EvidenceId, o: Outcome): Sys
    requires Present(s, id)
  {
    if s.recs[id].published then s
    else Concluded(s, id, AttemptDb(s.db, id, s.disk[id], o), Persists(s.db, id, s.disk[id], o), o.removes)
  }

  /** The attempt returns normally. */
  predicate Succeeds(s: Sys, id: EvidenceId, o: Outcome)
    requires Present(s, id)
  {
    s.recs[id].published || (Persists(s.db, id, s.disk[id], o) && o.removes && o.journals)
  }

  // ----- steps ---------------------------------------------------------------------------------

  function WithTask(s: Sys, id: EvidenceId, t: Task): Sys
    requires id in s.recs
  {
    s.(recs := s.recs[id := s.recs[id].(task := t)])
  }

  /** A recording starts, resuming the slot's recoverable workspace if there is one. */
  function Started(s: Sys, slot: Slot, uuid: EvidenceId, area: Area, at: Time): Sys
    requires slot in s.recoverable ==> s.recoverable[slot] in s.recs
  {
    if slot in s.recordings then s
    else if slot in s.recoverable then
      var id := s.recoverable[slot];
      s.(recoverable := s.recoverable - {slot}, recordings := s.recordings[slot := id],
         recs := s.recs[id := s.recs[id].(task := Capturing)])
    else
      s.(disk := s.disk[uuid := Workspace(slot, area, at, true)],
         recordings := s.recordings[slot := uuid],
         recs := s.recs[uuid := Recording(false, Capturing)])
  }

  function Parked(s: Sys, id: EvidenceId): Sys
    requires Present(s, id)
  {
    var slot := s.disk[id].slot;
    WithTask(s, id, Ended).(recoverable := s.recoverable[slot := id], recordings := s.recordings - {slot})
  }

  /** A task ends after its own attempt: a failure is kept for the barrier or the next restart. */
  function TaskDone(s: Sys, id: EvidenceId, succeeded: bool): Sys
    requires Present(s, id)
  {
    var after := WithTask(s, id, Ended);
    if succeeded then after else after.(recoverable := s.recoverable[s.disk[id].slot := id])
  }

  function TaskPublished(s: Sys, id: EvidenceId, o: Outcome): Sys
    requires Present(s, id)
  {
    TaskDone(Attempted(s, id, o), id, Succeeds(s, id, o))
  }

  function Popped(s: Sys, id: EvidenceId): Sys
    requires id in s.disk
  {
    s.(recoverable := s.recoverable - {s.disk[id].slot})
  }

  function OfEpisode(m: map<Slot, EvidenceId>, e: EpisodeId): map<Slot, EvidenceId> {
    map slot | slot in m && slot.episode == e :: m[slot]
  }

  function Begun(s: Sys, e: EpisodeId): Sys {
    var active := OfEpisode(s.recordings, e);
    s.(recordings := s.recordings - active.Keys,
       barriers := s.barriers[e := Joining(active.Values + OfEpisode(s.recoverable, e).Values, active)])
  }

  /** The capture task the call waits for ended with an exception, and the recording has not started again since. */
  predicate TaskFailed(s: Sys, slot: Slot, id: EvidenceId) {
    id in s.recs && s.recs[id].task.Failed? && !Holds(s.recordings, slot, id)
  }

  /** The capture task the call waits for is over; a recording that has started again has a new one. */
  predicate TaskOver(s: Sys, slot: Slot, id: EvidenceId) {
    id in s.recs && s.recs[id].Running() ==> Holds(s.recordings, slot, id)
  }

  /** Recordings whose task ended with an exception and that are not published. */
  function Unsaved(s: Sys, waiting: map<Slot, EvidenceId>): map<Slot, EvidenceId> {
    map slot | slot in waiting && TaskFailed(s, slot, waiting[slot]) && !s.recs[waiting[slot]].published :: waiting[slot]
  }

  /** Once the stopped captures are joined, any failure is raised, otherwise the recoverable recordings follow. */
  function Joined(s: Sys, e: EpisodeId, order: seq<EvidenceId>): Sys
    requires e in s.barriers && s.barriers[e].Joining?
  {
    var b := s.barriers[e];
    if exists slot | slot in b.waiting :: TaskFailed(s, slot, b.waiting[slot]) then
      s.(recoverable := s.recoverable + Unsaved(s, b.waiting), barriers := s.barriers[e := Raised(b.covered)])
    else s.(barriers := s.barriers[e := Draining(b.covered, order)])
  }

  /** The finalizer goes on after an attempt at the head of its list, or raises. */
  function DrainDone(s: Sys, e: EpisodeId, succeeded: bool): Sys
    requires e in s.barriers && s.barriers[e].Draining? && s.barriers[e].todo != [] && s.barriers[e].todo[0] in s.disk
  {
    var b := s.barriers[e];
    if succeeded then Popped(s, b.todo[0]).(barriers := s.barriers[e := b.(todo := b.todo[1..])])
    else s.(barriers := s.barriers[e := Raised(b.covered)])
  }

  function Drained(s: Sys, e: EpisodeId, o: Outcome): Sys
    requires e in s.barriers && s.barriers[e].Draining? && s.barriers[e].todo != [] && Present(s, s.barriers[e].todo[0])
  {
    DrainDone(Attempted(s, s.barriers[e].todo[0], o), e, Succeeds(s, s.barriers[e].todo[0], o))
  }

  /** The restart scan visits one marked workspace. */
  function ScanOne(s: Sys, id: EvidenceId, known: set<string>): Sys {
    if id !in s.disk || !s.disk[id].marker then s
    else
      var w := s.disk[id];
      var e := w.slot.episode;
      if e >= |s.db.episodes| || s.db.episodes[e].Finished() then s
      else if Linked(s.db, id, e) then s.(disk := s.disk[id := w.(marker := false)])
      else if w.slot.device !in known then s
      else s.(recoverable := s.recoverable[w.slot := id], recs := s.recs[id := Recording(false, NoTask)])
  }

  function Scanned(s: Sys, order: seq<EvidenceId>, known: set<string>): Sys
    decreases |order|
  {
    if order == [] then s
    else ScanOne(Scanned(s, order[..|order| - 1], known), order[|order| - 1], known)
  }

  function Crashed(s: Sys): Sys {
    s.(up := false, recordings := map[], recoverable := map[], recs := map[], barriers := map[])
  }

  ghost predicate Lists(order: seq<EvidenceId>, ids: set<EvidenceId>) {
    (forall i, j | 0 <= i < j < |order| :: order[i] != order[j]) && (forall id :: id in order <==> id in ids)
  }

  /** An engine transaction: no Episode leaves Finalizing through it, and only an open one turns Active. */
  predicate EngineMay(db: Db, c: Commit) {
    WellFormed(db, c) && !c.MarkClosed?
    && (c.SetState? && c.id < |db.episodes| ==> db.episodes[c.id].Open() && c.state.Active?)
  }

  ghost predicate Enabled(s: Sys, a: Action) {
    match a
    case Start(slot, uuid, _, _) =>
      s.up && slot.episode < |s.db.episodes| && uuid !in s.disk && uuid !in s.db.evidence
    case Park(id) => Present(s, id) && s.recs[id].task.Capturing?
    case PopSelf(id) => Present(s, id) && s.recs[id].task.Capturing?
    case NoticeStop(id) =>
      Present(s, id) && s.recs[id].task.Capturing? && !Holds(s.recordings, s.disk[id].slot, id)
    case Publish(id, _) => Present(s, id) && s.recs[id].task.Publishing?
    case TaskFails(id) => Present(s, id) && s.recs[id].task.Capturing?
    case Take(id) => Present(s, id) && Holds(s.recoverable, s.disk[id].slot, id)
    case PublishTaken(id, _) => Present(s, id) && s.recs[id].task.Taken?
    case BeginBarrier(e) =>
      s.up && e < |s.db.episodes| && s.db.episodes[e].state.Finalizing?
      && (e in s.barriers ==> s.barriers[e].Raised? || s.barriers[e].Returned?)
    case Join(e, order) =>
      s.up && e in s.barriers && s.barriers[e].Joining? && Lists(order, OfEpisode(s.recoverable, e).Values)
      && forall slot | slot in s.barriers[e].waiting :: TaskOver(s, slot, s.barriers[e].waiting[slot])
    case Drain(e, _) =>
      s.up && e in s.barriers && s.barriers[e].Draining? && s.barriers[e].todo != []
      && Present(s, s.barriers[e].todo[0])
    case FinishDrain(e) => s.up && e in s.barriers && s.barriers[e].Draining? && s.barriers[e].todo == []
    case Close(e, _) => s.up && e in s.barriers && s.barriers[e].Returned?
    case Engine(c) => s.up && EngineMay(s.db, c)
    case Crash(inFlight, _) => s.up && (inFlight.Some? ==> Present(s, inFlight.value))
    case Scan(order, _) => !s.up && forall id | id in s.disk && s.disk[id].marker :: id in order
    case CrashInScan(_, _) => !s.up
  }

  ghost function Next(s: Sys, a: Action): Sys
    requires Registered(s) && Enabled(s, a)
  {
    match a
    case Start(slot, uuid, area, at) => Started(s, slot, uuid, area, at)
    case Park(id) => Parked(s, id)
    case PopSelf(id) => WithTask(s, id, Publishing).(recordings := s.recordings - {s.disk[id].slot})
    case NoticeStop(id) => WithTask(s, id, Publishing)
    case Publish(id, o) => TaskPublished(s, id, o)
    case TaskFails(id) => WithTask(s, id, Failed)
    case Take(id) => Popped(WithTask(s, id, Taken), id)
    case PublishTaken(id, o) => TaskDone(Attempted(s, id, o), id, true)
    case BeginBarrier(e) => Begun(s, e)
    case Join(e, order) => Joined(s, e, order)
    case Drain(e, o) => Drained(s, e, o)
    case FinishDrain(e) => s.(barriers := s.barriers[e := Returned(s.barriers[e].covered)])
    case Close(e, at) => s.(db := Apply(s.db, MarkClosed(e, at)), barriers := s.barriers - {e})
    case Engine(c) => s.(db := Apply(s.db, c))
    case Crash(inFlight, n) =>
      Crashed(if inFlight.Some? then Attempted(s, inFlight.value, Outcome(n, true, false, false)) else s)
    case Scan(order, known) => Scanned(s, order, known).(up := true)
    case CrashInScan(order, known) => Crashed(Scanned(s, order, known))
  }

  /** What the maps hold are recordings of this process, filed under their own slot. */
  ghost predicate Filed(s: Sys) {
    && (forall id | id in s.recs :: id in s.disk)
    && (forall slot | slot in s.recordings ::
          s.recordings[slot] in s.recs && s.disk[s.recordings[slot]].slot == slot)
    && (forall slot | slot in s.recoverable ::
          s.recoverable[slot] in s.recs && s.disk[s.recoverable[slot]].slot == slot)
    && (forall e | e in s.barriers :: BarrierFiled(s, e, s.barriers[e]))
  }

  /** What a call works on are recordings of its own Episode. */
  ghost predicate BarrierFiled(s: Sys, e: EpisodeId, b: Barrier) {
    && (b.Joining? ==> WaitingFiled(s, e, b.waiting))
    && (b.Draining? ==> forall id | id in b.todo :: id in s.recs && id in s.disk && s.disk[id].slot.episode == e)
  }

  ghost predicate WaitingFiled(s: Sys, e: EpisodeId, waiting: map<Slot, EvidenceId>) {
    forall slot | slot in waiting ::
      slot.episode == e && waiting[slot] in s.recs && waiting[slot] in s.disk && s.disk[waiting[slot]].slot == slot
  }

  ghost predicate Registered(s: Sys) {
    Filed(s) && (!s.up ==> s.recs == map[] && s.barriers == map[])
  }
}
