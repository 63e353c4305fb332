/** The recorder as an object.  Recordings are filed by the Evidence id fixed for their workspace;
    what the environment does (how an attempt or a task ends) is a parameter. */
module RecordingCore {
  import opened Domain
  import opened Store
  import opened Recorder
  import opened FinalizationBarrier
  import opened FinalizerCall
  import opened CaptureLease

  /** Every registered recording whose Episode has a lease carries its deadline. */
  predicate CarryLeases(recordings: map<Slot, EvidenceId>, leases: map<EpisodeId, Lease>, deadlines: map<EvidenceId, Time>) {
    forall slot | slot in recordings && slot.episode in leases ::
      recordings[slot] in deadlines && deadlines[recordings[slot]] == leases[slot.episode].deadline
  }

  /** Taking recordings out of the registry keeps that. */
  lemma FewerCarry(more: map<Slot, EvidenceId>, fewer: map<Slot, EvidenceId>, leases: map<EpisodeId, Lease>,
                  deadlines: map<EvidenceId, Time>)
    requires forall slot | slot in fewer :: slot in more && fewer[slot] == more[slot]
    ensures CarryLeases(more, leases, deadlines) ==> CarryLeases(fewer, leases, deadlines)
  {
  }

  /** What joining leaves, by whether any task failed. */
  lemma JoinedByOutcome(s: Sys, e: EpisodeId, order: seq<EvidenceId>, failed: bool)
    requires e in s.barriers && s.barriers[e].Joining?
    requires var waiting := s.barriers[e].waiting; failed <==> exists slot | slot in waiting :: TaskFailed(s, slot, waiting[slot])
    ensures var b := s.barriers[e];
      Joined(s, e, order) == s.(recoverable := s.recoverable + Unsaved(s, b.waiting),
                                barriers := s.barriers[e := if failed then Raised(b.covered) else Draining(b.covered, order)])
  {
    if !failed {
      assert Unsaved(s, s.barriers[e].waiting) == map[];
    }
  }

  class RecordingEngine {
    var db: Db
    var disk: map<EvidenceId, Workspace>
    var recordings: map<Slot, EvidenceId>
    var recoverable: map<Slot, EvidenceId>
    var recs: map<EvidenceId, Recording>
    ghost var barriers: map<EpisodeId, Barrier>
    var leases: map<EpisodeId, Lease>
    // the capture_lease_deadline and finalize_reason fields of recordings
    var deadlines: map<EvidenceId, Time>
    var expired: set<EvidenceId>

    ghost function State(): Sys
      reads this
    {
      Sys(db, disk, true, recordings, recoverable, recs, barriers)
    }

    /** Every registered recording whose Episode has a lease holds it. */
    ghost predicate LeasesHeld()
      reads this
    {
      CarryLeases(recordings, leases, deadlines)
    }

    /** A new process finds the database and the workspaces on disk; it has no lease and no recording yet. */
    constructor (db: Db, disk: map<EvidenceId, Workspace>)
      ensures State() == Sys(db, disk, true, map[], map[], map[], map[]) && leases == map[] && LeasesHeld()
    {
      this.db, this.disk := db, disk;
      recordings, recoverable, recs, barriers := map[], map[], map[], map[];
      leases, deadlines, expired := map[], map[], {};
    }

    // ----- leases -----------------------------------------------------------------------------

    /** A closed Episode needs no lease any more. */
    method ForgetEpisodeCaptureLease(e: EpisodeId)
      modifies this`leases
      ensures leases == old(leases) - {e}
      ensures old(LeasesHeld()) ==> LeasesHeld()
    {
      leases := leases - {e};
    }

    /** Merges a lease message and hands the lease to every registered recording of the Episode.  A
        recording marked expired is unmarked exactly when its own deadline moved forward. */
    method SetEpisodeCaptureLease(e: EpisodeId, m: Message)
      requires Registered(State())
      modifies this`leases, this`deadlines, this`expired
      ensures leases == old(leases)[e := Merged(if e in old(leases) then Some(old(leases)[e]) else None, m)]
      ensures old(LeasesHeld()) ==> LeasesHeld()
      ensures old(LeasesHeld()) ==> forall slot | slot in recordings && slot.episode == e ::
                (recordings[slot] in expired <==>
                 recordings[slot] in old(expired) && recordings[slot] in old(deadlines)
                 && leases[e].deadline <= old(deadlines)[recordings[slot]])
      ensures OthersKept(e, old(deadlines), old(expired))
    {
      var local := m.arrival + Max(0, m.until - m.arrival);
      if e in leases && m.revision < leases[e].revision {
        assert leases[e := leases[e]] == leases;
        return;
      }
      if e in leases && m.revision == leases[e].revision {
        local := Max(leases[e].deadline, local);
      }
      leases := leases[e := Lease(m.revision, local)];
      SpreadLease(e, local);
    }

    ghost predicate OthersKept(e: EpisodeId, before: map<EvidenceId, Time>, marked: set<EvidenceId>)
      reads this
    {
      forall id | id in recs && id in disk && disk[id].slot.episode != e ::
        (id in expired <==> id in marked) && (id in deadlines <==> id in before)
        && (id in before ==> deadlines[id] == before[id])
    }

    method SpreadLease(e: EpisodeId, local: Time)
      requires Registered(State())
      modifies this`deadlines, this`expired
      ensures forall slot | slot in recordings && slot.episode == e ::
                recordings[slot] in deadlines && deadlines[recordings[slot]] == local
                && (recordings[slot] in expired <==>
                    recordings[slot] in old(expired) && recordings[slot] in old(deadlines)
                    && local <= old(deadlines)[recordings[slot]])
      ensures OthersKept(e, old(deadlines), old(expired))
    {
      var todo := recordings.Keys;
      while todo != {}
        invariant todo <= recordings.Keys
        invariant forall slot | slot in recordings && slot.episode == e && slot !in todo ::
                    recordings[slot] in deadlines && deadlines[recordings[slot]] == local
                    && (recordings[slot] in expired <==>
                        recordings[slot] in old(expired) && recordings[slot] in old(deadlines)
                        && local <= old(deadlines)[recordings[slot]])
        invariant forall slot | slot in todo ::
                    (recordings[slot] in expired <==> recordings[slot] in old(expired))
                    && (recordings[slot] in deadlines <==> recordings[slot] in old(deadlines))
                    && (recordings[slot] in deadlines ==> deadlines[recordings[slot]] == old(deadlines)[recordings[slot]])
        invariant OthersKept(e, old(deadlines), old(expired))
      {
        var slot :| slot in todo;
        todo := todo - {slot};
        if slot.episode == e {
          var id := recordings[slot];
          if id in expired && (id !in deadlines || local > deadlines[id]) {
            expired := expired - {id};
          }
          deadlines := deadlines[id := local];
        }
      }
    }

    // ----- starting and stopping -----------------------------------------------------------------

    method StartRecording(slot: Slot, uuid: EvidenceId, area: Area, at: Time)
      requires Registered(State()) && uuid !in disk
      modifies this`disk, this`recordings, this`recoverable, this`recs, this`deadlines, this`expired
      ensures State() == Started(old(State()), slot, uuid, area, at)
      ensures old(LeasesHeld()) ==> LeasesHeld()
    {
      if slot in recordings {
        return;
      }
      var id := uuid;
      if slot in recoverable {
        id := recoverable[slot];
        recoverable := recoverable - {slot};
        recs := recs[id := recs[id].(task := Capturing)];
      } else {
        disk := disk[id := Workspace(slot, area, at, true)];
        recs := recs[id := Recording(false, Capturing)];
      }
      expired := expired - {id};
      if slot.episode in leases {
        deadlines := deadlines[id := leases[slot.episode].deadline];
      }
      recordings := recordings[slot := id];
    }

    method ParkCaptureLeaseBundle(id: EvidenceId)
      requires Present(State(), id)
      modifies this`recordings, this`recoverable, this`recs
      ensures State() == Parked(old(State()), id)
      ensures old(LeasesHeld()) ==> LeasesHeld()
    {
      var slot := disk[id].slot;
      recoverable := recoverable[slot := id];
      recordings := recordings - {slot};
      recs := recs[id := recs[id].(task := Ended)];
    }

    // ----- publication ------------------------------------------------------------------------------

    /** The Evidence sink.  It may raise once `o.commits` of its transactions are committed. */
    method IngestRecordingEvidence(id: EvidenceId, o: Outcome) returns (raised: bool)
      requires id in disk
      modifies this`db
      ensures db == AttemptDb(old(db), id, disk[id], o) && raised == o.raises
    {
      raised := o.raises;
      var w := disk[id];
      var e := w.slot.episode;
      var accepted := AcceptsEvidence(db, e, true) && (id in db.evidence ==> db.evidence[id].episode.None?);
      ghost var p := SinkProgram(db, id, w);
      RunShort(db, p);
      assert RunTo(db, p, 0) == db;
      assert |p| >= 1 ==> RunTo(db, p, 1) == Apply(db, p[0]);
      var left := o.commits;
      if id !in db.evidence {
        if raised && left == 0 {
          return;
        }
        left := Max(left - 1, 0);
        db := db.(evidence := db.evidence[id := w.Output().(episode := None)]);
      }
      if accepted && !(raised && left == 0) {
        db := Apply(db, LinkEvidence(id, e, true));
      }
    }

    /** One publication attempt; the marker goes only after the stored Evidence is verified. */
    method FinalizeBundle(id: EvidenceId, o: Outcome) returns (ok: bool)
      requires Present(State(), id)
      modifies this`db, this`disk, this`recs
      ensures State() == Attempted(old(State()), id, o) && ok == Succeeds(old(State()), id, o)
    {
      if recs[id].published {
        return true;
      }
      var raised := IngestRecordingEvidence(id, o);
      if raised || !Linked(db, id, disk[id].slot.episode) {
        return false;
      }
      recs := recs[id := recs[id].(published := true)];
      if !o.removes {
        return false;
      }
      disk := disk[id := disk[id].(marker := false)];
      ok := o.journals;
    }

    /** What a capture task does last: park at its lease, or publish and keep a failure recoverable. */
    method FinalizeFromRetryTask(id: EvidenceId, atLease: bool, o: Outcome)
      requires Present(State(), id)
      modifies this`db, this`disk, this`recs, this`recordings, this`recoverable
      ensures State() == if atLease then Parked(old(State()), id) else TaskPublished(old(State()), id, o)
      ensures old(LeasesHeld()) ==> LeasesHeld()
    {
      if atLease {
        ParkCaptureLeaseBundle(id);
        return;
      }
      var ok := FinalizeBundle(id, o);
      if !ok {
        recoverable := recoverable[disk[id].slot := id];
      }
      recs := recs[id := recs[id].(task := Ended)];
    }

    // ----- the finalization barrier --------------------------------------------------------------------

    /** Waits for one stopped capture task. */
    method FinishStop(id: EvidenceId, end: TaskEnd)
      requires Present(State(), id)
      modifies this`db, this`disk, this`recs, this`recordings, this`recoverable
      ensures State() == TaskEnded(old(State()), id, end)
      ensures old(LeasesHeld()) ==> LeasesHeld()
    {
      if recs[id].task.Failed? {
        return;
      }
      match end
      case Parks =>
        ParkCaptureLeaseBundle(id);
      case Fails =>
        recs := recs[id := recs[id].(task := Failed)];
      case Publishes(o) =>
        recs := recs[id := recs[id].(task := Publishing)];
        FinalizeFromRetryTask(id, false, o);
    }

    /** Every stopped recording is awaited. */
    method FinishStops(e: EpisodeId, waiting: map<Slot, EvidenceId>, ends: map<EvidenceId, TaskEnd>)
      requires JoinUnderWay(State(), State(), e, waiting.Keys) && barriers[e].waiting == waiting
      modifies this`db, this`disk, this`recs, this`recordings, this`recoverable
      ensures JoinUnderWay(old(State()), State(), e, {})
    {
      var todo := waiting.Keys;
      while todo != {}
        invariant JoinUnderWay(old(State()), State(), e, todo)
      {
        var slot :| slot in todo;
        var id := waiting[slot];
        var end := if id in ends then ends[id] else Fails;
        JoinGoesOn(old(State()), State(), e, todo, slot, end);
        FinishStop(id, end);
        todo := todo - {slot};
      }
    }

    /** Takes the Episode's recordings out of the registry and tells them to stop. */
    method StopRecordings(e: EpisodeId) returns (stopped: map<Slot, EvidenceId>)
      modifies this`recordings, this`barriers
      ensures State() == Begun(old(State()), e) && stopped == OfEpisode(old(recordings), e)
      ensures old(LeasesHeld()) ==> LeasesHeld()
    {
      stopped := map slot | slot in recordings && slot.episode == e :: recordings[slot];
      barriers := barriers[e := Joining(stopped.Values + OfEpisode(recoverable, e).Values, stopped)];
      recordings := recordings - stopped.Keys;
    }

    /** A recording whose task ended with an exception goes back unless it is published. */
    method KeepUnsaved(stopped: map<Slot, EvidenceId>) returns (failed: bool)
      modifies this`recoverable
      ensures recoverable == old(recoverable) + Unsaved(old(State()), stopped)
      ensures failed <==> exists slot | slot in stopped :: TaskFailed(old(State()), slot, stopped[slot])
    {
      failed := false;
      var todo := stopped.Keys;
      ghost var s := State();
      ghost var unsaved := Unsaved(s, stopped);
      while todo != {}
        invariant todo <= stopped.Keys
        invariant State() == s.(recoverable := recoverable)
        invariant forall slot | slot in unsaved && slot !in todo :: Holds(recoverable, slot, unsaved[slot])
        invariant forall slot | slot in recoverable && !(slot in unsaved && slot !in todo) ::
                    Holds(s.recoverable, slot, recoverable[slot])
        invariant s.recoverable.Keys <= recoverable.Keys
        invariant failed <==> exists slot | slot in stopped && slot !in todo :: TaskFailed(s, slot, stopped[slot])
      {
        var slot :| slot in todo;
        todo := todo - {slot};
        var bad := KeepIfUnsaved(slot, stopped[slot]);
        failed := failed || bad;
      }
    }

    method KeepIfUnsaved(slot: Slot, id: EvidenceId) returns (failed: bool)
      modifies this`recoverable
      ensures failed == TaskFailed(old(State()), slot, id)
      ensures recoverable == if failed && !recs[id].published then old(recoverable)[slot := id] else old(recoverable)
    {
      failed := id in recs && recs[id].task.Failed? && !(slot in recordings && recordings[slot] == id);
      if failed && !recs[id].published {
        recoverable := recoverable[slot := id];
      }
    }

    /** The Episode's recoverable recordings, as a list. */
    method ListRecoverable(e: EpisodeId) returns (order: seq<EvidenceId>)
      requires Registered(State())
      ensures Lists(order, OfEpisode(recoverable, e).Values)
    {
      order := [];
      var found := map slot | slot in recoverable && slot.episode == e :: recoverable[slot];
      var todo := found.Keys;
      while todo != {}
        invariant todo <= found.Keys
        invariant forall i, j | 0 <= i < j < |order| :: order[i] != order[j]
        invariant forall id | id in order :: id in disk && disk[id].slot in found.Keys - todo && found[disk[id].slot] == id
        invariant forall slot | slot in found && slot !in todo :: found[slot] in order
      {
        var slot :| slot in todo;
        todo := todo - {slot};
        order := order + [found[slot]];
      }
    }

    /** Publishes one recoverable recording of the call's list, or raises. */
    method DrainOne(e: EpisodeId, id: EvidenceId, o: Outcome) returns (ok: bool)
      requires Registered(State()) && Enabled(State(), Drain(e, o)) && barriers[e].todo[0] == id
      modifies this`db, this`disk, this`recs, this`recoverable, this`barriers
      ensures State() == Drained(old(State()), e, o)
      ensures ok == Succeeds(old(State()), id, o)
    {
      ok := FinalizeBundle(id, o);
      if ok {
        recoverable := recoverable - {disk[id].slot};
        barriers := barriers[e := barriers[e].(todo := barriers[e].todo[1..])];
      } else {
        barriers := barriers[e := Raised(barriers[e].covered)];
      }
    }

    /** The recoverable recordings are published one after the other, up to the first failure. */
    method DrainRecoverable(e: EpisodeId, order: seq<EvidenceId>, outcomes: map<EvidenceId, Outcome>) returns (ok: bool)
      requires DrainUnderWay(State(), State(), e, order)
      modifies this`db, this`disk, this`recs, this`recoverable, this`barriers
      ensures CallEnded(old(State()), State(), e, ok)
    {
      var left := order;
      ok := true;
      while left != []
        invariant DrainUnderWay(old(State()), State(), e, left)
        decreases |left|
      {
        var o := if left[0] in outcomes then outcomes[left[0]] else Outcome(0, true, false, false);
        DrainGoesOn(old(State()), State(), e, left, o);
        ok := DrainOne(e, left[0], o);
        if !ok {
          return;
        }
        left := left[1..];
      }
      FinishGoesOn(old(State()), State(), e);
      barriers := barriers[e := Returned(barriers[e].covered)];
    }

    /** Raises if a task ended with an exception; otherwise the recoverable recordings are next. */
    method JoinTasks(e: EpisodeId, stopped: map<Slot, EvidenceId>, order: seq<EvidenceId>) returns (ok: bool)
      requires e in barriers && barriers[e].Joining? && barriers[e].waiting == stopped
      modifies this`recoverable, this`barriers
      ensures State() == Joined(old(State()), e, order) && ok == barriers[e].Draining?
    {
      var failed := KeepUnsaved(stopped);
      JoinedByOutcome(old(State()), e, order, failed);
      ok := !failed;
      if failed {
        barriers := barriers[e := Raised(barriers[e].covered)];
      } else {
        barriers := barriers[e := Draining(barriers[e].covered, order)];
      }
    }

    /** The phases of a finalizer call, one after the other. */
    method StopAndPublish(e: EpisodeId, ends: map<EvidenceId, TaskEnd>, outcomes: map<EvidenceId, Outcome>)
      returns (ok: bool)
      requires Trusted(State()) && Enabled(State(), BeginBarrier(e))
      modifies this`db, this`disk, this`recs, this`recordings, this`recoverable, this`barriers
      ensures Trusted(State()) && CallResult(old(State()), State(), e, ok)
    {
      ghost var s := State();
      CallBegins(s, e);
      var stopped := StopRecordings(e);
      FinishStops(e, stopped, ends);
      var order := ListRecoverable(e);
      ghost var t := State();
      JoinGivesFrame(s, t, e, order);
      ok := JoinTasks(e, stopped, order);
      ghost var j := State();
      if ok {
        ok := DrainRecoverable(e, order, outcomes);
      }
      CallGivesResult(s, j, State(), e, ok);
    }

    /** Stops and publishes all recorder output of an Episode.  A normal return means every recording found
        is published; otherwise each that is not stays recoverable, and the Episode is still finalizing. */
    method FinalizeEpisode(e: EpisodeId, ends: map<EvidenceId, TaskEnd>, outcomes: map<EvidenceId, Outcome>)
      returns (ok: bool)
      requires Trusted(State()) && Enabled(State(), BeginBarrier(e))
      modifies this`db, this`disk, this`recs, this`recordings, this`recoverable, this`barriers
      ensures Trusted(State()) && CallResult(old(State()), State(), e, ok)
      ensures old(LeasesHeld()) ==> LeasesHeld()
    {
      ok := StopAndPublish(e, ends, outcomes);
      FewerCarry(old(recordings), recordings, leases, deadlines);
    }

    // ----- restart -------------------------------------------------------------------------------------

    /** Looks at every marked workspace: completes the published ones and hands back the rest. */
    method RecoverInterruptedRecordings(order: seq<EvidenceId>, known: set<string>)
      modifies this`disk, this`recoverable, this`recs
      ensures State() == Scanned(old(State()), order, known)
      ensures old(LeasesHeld()) ==> LeasesHeld()
    {
      for i := 0 to |order|
        invariant State() == Scanned(old(State()), order[..i], known)
      {
        assert order[..i + 1][..i] == order[..i];
        RecoverInterruptedBundle(order[i], known);
      }
      assert order[..|order|] == order;
    }

    method RecoverInterruptedBundle(id: EvidenceId, known: set<string>)
      modifies this`disk, this`recoverable, this`recs
      ensures State() == ScanOne(old(State()), id, known)
    {
      if id !in disk || !disk[id].marker {
        return;
      }
      var w := disk[id];
      var e := w.slot.episode;
      if e >= |db.episodes| || db.episodes[e].Finished() {
        return;
      }
      if id in db.evidence && db.evidence[id].episode == Some(e) {
        disk := disk[id := w.(marker := false)];
        return;
      }
      if w.slot.device !in known {
        return;
      }
      recoverable := recoverable[w.slot := id];
      recs := recs[id := Recording(false, NoTask)];
    }
  }
}
