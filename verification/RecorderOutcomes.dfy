/** What the steps of the recorder leave in its maps, said without the steps: what is kept for another try, what is
    not, and that closing closes. */
module RecorderOutcomes {
  import opened Domain
  import opened Store
  import opened Recorder
  import opened Publication
  import opened Markers

  /** Everything about recordings and calls but the maps and the recording `id` is as before. */
  ghost predicate OnlyMaps(s: Sys, t: Sys, id: EvidenceId) {
    && t.up == s.up && t.recs.Keys == s.recs.Keys
    && forall x | x in s.recs && x != id :: t.recs[x] == s.recs[x]
  }

  /** The attempt is over and done: published before, or verified, with its marker removed and its entry written. */
  predicate AttemptDone(s: Sys, t: Sys, id: EvidenceId, o: Outcome)
    requires id in s.recs && id in s.disk
  {
    s.recs[id].published || (Verified(t, s.disk[id], id, o) && o.removes && o.journals)
  }

  lemma AttemptFinishes(s: Sys, id: EvidenceId, o: Outcome)
    requires Registered(s) && Marked(s) && Present(s, id)
    ensures Succeeds(s, id, o) <==> AttemptDone(s, Attempted(s, id, o), id, o)
    ensures Attempted(s, id, o).recs.Keys == s.recs.Keys && Attempted(s, id, o).up
    ensures forall x | x in s.recs && x != id :: Attempted(s, id, o).recs[x] == s.recs[x]
    ensures Attempted(s, id, o).recoverable == s.recoverable && Attempted(s, id, o).recordings == s.recordings
    ensures Attempted(s, id, o).barriers == s.barriers && Attempted(s, id, o).disk.Keys == s.disk.Keys
    ensures forall x | x in s.disk :: Attempted(s, id, o).disk[x].slot == s.disk[x].slot
    ensures id in Attempted(s, id, o).recs && Attempted(s, id, o).recs[id].task == s.recs[id].task
  {
    if !s.recs[id].published {
      AttemptedOutcome(s, id, o);
    }
  }

  /** The attempt of a capture task: a recording that is done is not kept, one that is not is kept for the next
      try in its slot, and the task has ended. */
  lemma PublishOutcome(s: Sys, id: EvidenceId, o: Outcome)
    requires Registered(s) && Marked(s) && Enabled(s, Publish(id, o))
    ensures var t := Next(s, Publish(id, o));
      && OnlyMaps(s, t, id) && t.recs[id].task == Ended && t.recordings == s.recordings && t.barriers == s.barriers
      && t.recoverable == if AttemptDone(s, t, id, o) then s.recoverable else s.recoverable[s.disk[id].slot := id]
  {
    AttemptFinishes(s, id, o);
  }

  /** The attempt startup makes for a recording it took: it is not kept, whatever became of it. */
  lemma PublishTakenOutcome(s: Sys, id: EvidenceId, o: Outcome)
    requires Registered(s) && Marked(s) && Enabled(s, PublishTaken(id, o))
    ensures var t := Next(s, PublishTaken(id, o));
      && OnlyMaps(s, t, id) && t.recs[id].task == Ended && t.recordings == s.recordings && t.barriers == s.barriers
      && t.recoverable == s.recoverable
  {
    AttemptFinishes(s, id, o);
  }

  /** The attempt of a finalizer call at the head of its list: one that is done leaves the recoverable map and the
      list; otherwise it stays and the call raises. */
  lemma DrainOutcome(s: Sys, e: EpisodeId, o: Outcome)
    requires Registered(s) && Marked(s) && Enabled(s, Drain(e, o))
    ensures var t, b := Next(s, Drain(e, o)), s.barriers[e];
      var id := b.todo[0];
      && OnlyMaps(s, t, id) && t.recs[id].task == s.recs[id].task && t.recordings == s.recordings
      && if AttemptDone(s, t, id, o) then
           t.recoverable == s.recoverable - {s.disk[id].slot}
           && t.barriers == s.barriers[e := Draining(b.covered, b.todo[1..])]
         else
           t.recoverable == s.recoverable && t.barriers == s.barriers[e := Raised(b.covered)]
  {
    AttemptFinishes(s, s.barriers[e].todo[0], o);
  }

  /** The recording the call waits for in the slot failed and has not started again. */
  predicate Lost(s: Sys, waiting: map<Slot, EvidenceId>, slot: Slot) {
    slot in waiting && waiting[slot] in s.recs && s.recs[waiting[slot]].task == Failed
    && !(slot in s.recordings && s.recordings[slot] == waiting[slot])
  }

  /** Joining: with a failed task the call raises, and exactly the failed recordings that are not published go
      back to the recoverable map; otherwise it goes on to what is recoverable, and keeps the maps. */
  lemma TasksJoinedOutcome(s: Sys, e: EpisodeId, order: seq<EvidenceId>)
    requires Registered(s) && Enabled(s, Join(e, order))
    ensures var t, b := Next(s, Join(e, order)), s.barriers[e];
      && t == s.(recoverable := t.recoverable, barriers := t.barriers)
      && if exists slot :: Lost(s, b.waiting, slot) then
           && t.barriers == s.barriers[e := Raised(b.covered)]
           && (forall slot :: slot in t.recoverable <==>
                 slot in s.recoverable || (Lost(s, b.waiting, slot) && !s.recs[b.waiting[slot]].published))
           && (forall slot | slot in t.recoverable ::
                 t.recoverable[slot] == if Lost(s, b.waiting, slot) && !s.recs[b.waiting[slot]].published then b.waiting[slot]
                                        else s.recoverable[slot])
         else
           t.recoverable == s.recoverable && t.barriers == s.barriers[e := Draining(b.covered, order)]
  {
    var b := s.barriers[e];
    forall slot ensures Lost(s, b.waiting, slot) <==> slot in b.waiting && TaskFailed(s, slot, b.waiting[slot]) {
    }
  }

  /** Closing after a normal return: the Episode is closed, stamped with its end, and the call is over. */
  lemma CallClosedOutcome(s: Sys, e: EpisodeId, at: Time)
    requires Safe(s) && Enabled(s, Close(e, at))
    ensures var t := Next(s, Close(e, at));
      && t == s.(db := t.db, barriers := s.barriers - {e}) && e < |s.db.episodes|
      && t.db == s.db.(episodes := s.db.episodes[e := s.db.episodes[e].(state := Closed, endTime := Some(at))])
  {
  }

  /** A start: nothing while the slot records; else the slot's recoverable workspace is resumed and no longer
      recoverable; else a new, marked one begins to record. */
  lemma StartOutcome(s: Sys, slot: Slot, uuid: EvidenceId, area: Area, at: Time)
    requires Registered(s) && Enabled(s, Start(slot, uuid, area, at))
    ensures var t := Next(s, Start(slot, uuid, area, at));
      if slot in s.recordings then t == s
      else if slot in s.recoverable then
        var id := s.recoverable[slot];
        t == s.(recoverable := s.recoverable - {slot}, recordings := s.recordings[slot := id],
                recs := s.recs[id := Recording(s.recs[id].published, Capturing)])
      else
        t == s.(disk := s.disk[uuid := Workspace(slot, area, at, true)], recordings := s.recordings[slot := uuid],
                recs := s.recs[uuid := Recording(false, Capturing)])
  {
  }

  /** Parking at the lease: the recording waits in the recoverable map and no longer records. */
  lemma ParkOutcome(s: Sys, id: EvidenceId)
    requires Registered(s) && Enabled(s, Park(id))
    ensures var t, slot := Next(s, Park(id)), s.disk[id].slot;
      t == s.(recordings := s.recordings - {slot}, recoverable := s.recoverable[slot := id],
              recs := s.recs[id := Recording(s.recs[id].published, Ended)])
  {
  }

  /** The Episode takes recorder output, as far as its state goes. */
  predicate TakesOutput(db: Db, e: EpisodeId) {
    e < |db.episodes| && (db.episodes[e].state == Active || db.episodes[e].state == Quiescent || db.episodes[e].state == Finalizing)
  }

  /** The Evidence row of the workspace is stored in its Episode, which counts it. */
  ghost predicate RowLinked(db: Db, id: EvidenceId, v: Evidence, e: EpisodeId, db': Db) {
    && e < |db.episodes|
    && db' == db.(evidence := db.evidence[id := v.(episode := Some(e))],
                  episodes := db.episodes[e := db.episodes[e].(evidenceCount := db.episodes[e].evidenceCount + 1)])
  }

  /** What the sink leaves when it is cut off after `n` transactions: nothing, the row alone, or the row in its
      Episode; a row that exists is never made again, and one that has an Episode is left as it is. */
  lemma CutOutcome(db: Db, id: EvidenceId, w: Workspace, n: nat)
    ensures var db', e, v := AttemptDb(db, id, w, Outcome(n, true, false, false)), w.slot.episode, Evidence(w.area, w.start, None);
      if id in db.evidence then
        if n >= 1 && TakesOutput(db, e) && db.evidence[id].episode.None? then RowLinked(db, id, db.evidence[id], e, db') else db' == db
      else if n == 0 then db' == db
      else if n == 1 || !TakesOutput(db, e) then db' == db.(evidence := db.evidence[id := v])
      else RowLinked(db, id, v, e, db')
  {
    var p, e, v := SinkProgram(db, id, w), w.slot.episode, Evidence(w.area, w.start, None);
    RunUpToTwo(db, p, if n <= |p| then n else |p|);
    assert db.evidence[id := v][id := v.(episode := Some(e))] == db.evidence[id := v.(episode := Some(e))];
  }

  /** A crash leaves the database of the attempt it hits, every workspace with its marker, and nothing else. */
  lemma CrashOutcome(s: Sys, inFlight: Option<EvidenceId>, n: nat)
    requires Registered(s) && Enabled(s, Crash(inFlight, n))
    ensures var t := Next(s, Crash(inFlight, n));
      && t == Sys(t.db, s.disk, false, map[], map[], map[], map[])
      && t.db == if inFlight.Some? && !s.recs[inFlight.value].published
                 then AttemptDb(s.db, inFlight.value, s.disk[inFlight.value], Outcome(n, true, false, false)) else s.db
  {
  }
}
