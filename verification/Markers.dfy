/** The recovery marker of a workspace: it is there for as long as its recording is unpublished, and the attempt
    that publishes the recording removes it. */
module Markers {
  import opened Domain
  import opened Store
  import opened Recorder
  import opened Publication

  /** An unpublished recording can still be found after a crash. */
  ghost predicate Marked(s: Sys) {
    forall id | id in s.recs && !s.recs[id].published :: id in s.disk && s.disk[id].marker
  }

  /** The recording an attempt is for. */
  predicate AttemptsFor(s: Sys, a: Action, id: EvidenceId) {
    || (a.Publish? && a.id == id) || (a.PublishTaken? && a.id == id)
    || (a.Drain? && a.episode in s.barriers && s.barriers[a.episode].Draining? && s.barriers[a.episode].todo != []
        && s.barriers[a.episode].todo[0] == id)
  }

  /** The sink returned, and what is stored under the workspace's id belongs to its Episode. */
  predicate Verified(t: Sys, w: Workspace, id: EvidenceId, o: Outcome) {
    !o.raises && id in t.db.evidence && t.db.evidence[id].episode == Some(w.slot.episode)
  }

  /** The attempt itself, before its task goes on. */
  lemma AttemptedOutcome(s: Sys, id: EvidenceId, o: Outcome)
    requires Present(s, id) && s.disk[id].marker && !s.recs[id].published
    ensures var t := Attempted(s, id, o);
      && id in t.disk && id in t.recs
      && (t.recs[id].published <==> Verified(t, s.disk[id], id, o))
      && (!t.disk[id].marker <==> Verified(t, s.disk[id], id, o) && o.removes)
      && t.disk == s.disk[id := s.disk[id].(marker := t.disk[id].marker)]
      && t.recs == s.recs[id := s.recs[id].(published := t.recs[id].published)]
      && (Succeeds(s, id, o) <==> Verified(t, s.disk[id], id, o) && o.removes && o.journals)
  {
    assert s.disk[id := s.disk[id]] == s.disk && s.recs[id := s.recs[id]] == s.recs;
  }

  /** What a task does after its attempt leaves markers and publication as they are. */
  lemma TaskGoesOn(s: Sys, mid: Sys, a: Action, id: EvidenceId)
    requires Registered(s) && Enabled(s, a) && AttemptsFor(s, a, id) && mid == Attempted(s, id, a.outcome) && id in mid.recs
    ensures var t := Next(s, a);
      t.db == mid.db && t.disk == mid.disk && id in t.recs && t.recs == mid.recs[id := mid.recs[id].(task := t.recs[id].task)]
  {
    if a.Drain? {
      DrainDoneKeeps(mid, a.episode, id, Succeeds(s, id, a.outcome));
    } else if a.Publish? {
      TaskDoneKeeps(mid, id, Succeeds(s, id, a.outcome));
    } else {
      TaskDoneKeeps(mid, id, true);
    }
  }

  lemma DrainDoneKeeps(mid: Sys, e: EpisodeId, id: EvidenceId, succeeded: bool)
    requires e in mid.barriers && mid.barriers[e].Draining? && mid.barriers[e].todo != [] && mid.barriers[e].todo[0] == id
    requires id in mid.disk && id in mid.recs
    ensures var t := DrainDone(mid, e, succeeded);
      t.db == mid.db && t.disk == mid.disk && id in t.recs && t.recs == mid.recs[id := mid.recs[id].(task := t.recs[id].task)]
  {
    assert mid.recs[id := mid.recs[id]] == mid.recs;
  }

  lemma TaskDoneKeeps(mid: Sys, id: EvidenceId, succeeded: bool)
    requires Present(mid, id)
    ensures var t := TaskDone(mid, id, succeeded);
      t.db == mid.db && t.disk == mid.disk && id in t.recs && t.recs == mid.recs[id := mid.recs[id].(task := t.recs[id].task)]
  {
  }

  /** An attempt for an unpublished recording, by whichever task: the recording counts as published exactly when
      the sink returned and its Evidence is in its Episode; its marker is gone exactly when, besides, removing it
      worked; and no other workspace or recording is affected. */
  lemma AttemptOutcome(s: Sys, a: Action, id: EvidenceId)
    requires Registered(s) && Marked(s) && Enabled(s, a) && AttemptsFor(s, a, id) && !s.recs[id].published
    ensures var t := Next(s, a);
      && id in t.disk && id in t.recs
      && (t.recs[id].published <==> Verified(t, s.disk[id], id, a.outcome))
      && (!t.disk[id].marker <==> Verified(t, s.disk[id], id, a.outcome) && a.outcome.removes)
      && t.disk == s.disk[id := s.disk[id].(marker := t.disk[id].marker)]
      && t.recs == s.recs[id := t.recs[id]]
  {
    AttemptedOutcome(s, id, a.outcome);
    TaskGoesOn(s, Attempted(s, id, a.outcome), a, id);
  }

  /** Once published nothing is attempted again. */
  lemma PublishedOutcome(s: Sys, a: Action, id: EvidenceId)
    requires Registered(s) && Enabled(s, a) && AttemptsFor(s, a, id) && s.recs[id].published
    ensures Next(s, a).db == s.db && Next(s, a).disk == s.disk
    ensures Next(s, a).recs.Keys == s.recs.Keys && forall x | x in s.recs :: Next(s, a).recs[x].published == s.recs[x].published
  {
    TaskGoesOn(s, s, a, id);
  }

  // ----- the restart scan -------------------------------------------------------------------------------------

  /** What a restart has handed back is marked and unpublished. */
  ghost predicate HandedBack(s: Sys) {
    forall id | id in s.recs :: id in s.disk && s.disk[id].marker && !Linked(s.db, id, s.disk[id].slot.episode)
  }

  lemma {:induction false} ScannedMarked(s: Sys, order: seq<EvidenceId>, known: set<string>)
    requires s.recs == map[]
    ensures HandedBack(Scanned(s, order, known))
    decreases |order|
  {
    if order != [] {
      ScannedMarked(s, order[..|order| - 1], known);
      ScanOneMarked(Scanned(s, order[..|order| - 1], known), order[|order| - 1], known);
    }
  }

  lemma ScanOneMarked(s: Sys, id: EvidenceId, known: set<string>)
    requires HandedBack(s)
    ensures HandedBack(ScanOne(s, id, known))
  {
  }

  lemma {:induction false} UnmarkedIsSkipped(s: Sys, order: seq<EvidenceId>, known: set<string>, id: EvidenceId)
    requires id in s.disk && !s.disk[id].marker && id !in s.recs && forall slot | slot in s.recoverable :: s.recoverable[slot] != id
    ensures var t := Scanned(s, order, known);
      && id in t.disk && t.disk[id] == s.disk[id] && id !in t.recs
      && forall slot | slot in t.recoverable :: t.recoverable[slot] != id
    decreases |order|
  {
    if order != [] {
      UnmarkedIsSkipped(s, order[..|order| - 1], known, id);
    }
  }

  /** A restart does not look at a workspace whose marker is gone. */
  lemma RestartSkipsUnmarked(s: Sys, order: seq<EvidenceId>, known: set<string>, id: EvidenceId)
    requires Registered(s) && s.recoverable == map[] && Enabled(s, Scan(order, known)) && id in s.disk && !s.disk[id].marker
    ensures var t := Next(s, Scan(order, known));
      && id in t.disk && t.disk[id] == s.disk[id] && id !in t.recs
      && forall slot | slot in t.recoverable :: t.recoverable[slot] != id
  {
    UnmarkedIsSkipped(s, order, known, id);
  }

  // ----- every run --------------------------------------------------------------------------------------------

  predicate AnAttempt(a: Action) {
    a.Publish? || a.PublishTaken? || a.Drain?
  }

  lemma AttemptKeepsMarked(s: Sys, a: Action)
    requires Registered(s) && Marked(s) && Enabled(s, a) && AnAttempt(a)
    ensures Marked(Next(s, a))
  {
    var id := if a.Drain? then s.barriers[a.episode].todo[0] else a.id;
    if s.recs[id].published {
      PublishedOutcome(s, a, id);
    } else {
      AttemptOutcome(s, a, id);
    }
  }

  lemma MoveKeepsMarked(s: Sys, a: Action)
    requires Registered(s) && Marked(s) && Enabled(s, a) && OnlyMoves(a)
    ensures Marked(Next(s, a))
  {
  }

  /** An unpublished recording never loses its marker, whatever the engine and the recorder do. */
  lemma StepMarked(s: Sys, a: Action)
    requires Registered(s) && Marked(s) && Enabled(s, a)
    ensures Marked(Next(s, a))
  {
    if AnAttempt(a) {
      AttemptKeepsMarked(s, a);
    } else if OnlyMoves(a) {
      MoveKeepsMarked(s, a);
    } else if a.Scan? {
      ScannedMarked(s, a.order, a.known);
    }
  }

  lemma {:induction false} RunMarked(s: Sys, run: seq<Action>, t: Sys)
    requires Marked(s) && Reaches(s, run, t)
    ensures Marked(t)
    decreases |run|
  {
    if run != [] {
      StepMarked(s, run[0]);
      RunMarked(Next(s, run[0]), run[1..], t);
    }
  }

  /** Along any run of a new recorder: an attempt for an unpublished recording removes the marker exactly when the
      Evidence is in the Episode, the sink returned and the removal worked; then a crash and a restart at that
      point pass the workspace over. */
  lemma MarkerTheorem(first: Sys, run: seq<Action>, s: Sys, a: Action, id: EvidenceId, order: seq<EvidenceId>, known: set<string>)
    requires Initial(first) && Reaches(first, run, s) && Enabled(s, a) && Registered(s)
    requires AttemptsFor(s, a, id) && !s.recs[id].published
    ensures var t := Next(s, a);
      && id in t.disk && s.disk[id].marker
      && (!t.disk[id].marker <==> Verified(t, s.disk[id], id, a.outcome) && a.outcome.removes)
      && (!t.disk[id].marker && (forall x | x in t.disk && t.disk[x].marker :: x in order) ==>
            var u := Scanned(Crashed(t), order, known).(up := true);
            id in u.disk && !u.disk[id].marker && id !in u.recs && forall slot | slot in u.recoverable :: u.recoverable[slot] != id)
  {
    RunMarked(first, run, s);
    AttemptOutcome(s, a, id);
    if !Next(s, a).disk[id].marker {
      UnmarkedIsSkipped(Crashed(Next(s, a)), order, known, id);
    }
  }
}
