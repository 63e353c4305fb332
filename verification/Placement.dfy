/** Where Evidence ends up: with the Episode it names, or with the one it belongs to by when it was observed. */
module Placement {
  import opened Domain
  import opened Store
  import opened Lifecycle
  import opened Protocol
  import Outcomes

  /** The Episode is open and its recorded lifespan contains the observation. */
  predicate Contains(db: Db, v: Evidence, id: EpisodeId) {
    && id < |db.episodes| && db.episodes[id].area == v.area
    && (db.episodes[id].state == Active || db.episodes[id].state == Quiescent)
    && db.episodes[id].start <= v.timestamp
    && (db.episodes[id].endTime.Some? ==> v.timestamp <= db.episodes[id].endTime.value)
  }

  /** Of those, the one of latest start. */
  ghost predicate LatestSpanning(db: Db, v: Evidence, id: EpisodeId) {
    Contains(db, v, id) && forall j: nat | Contains(db, v, j) :: db.episodes[j].start <= db.episodes[id].start
  }

  ghost predicate NoneSpans(db: Db, v: Evidence) {
    forall j: nat :: !Contains(db, v, j)
  }

  /** Evidence that names no Episode belongs to one that spans its observation, or else to the one open now. */
  ghost predicate Belongs(c: Core, v: Evidence, now: Time, id: EpisodeId) {
    v.area != NO_AREA
    && if NoneSpans(c.db, v) then Outcomes.BestJoinable(c, v.area, now, false, id) else LatestSpanning(c.db, v, id)
  }

  ghost predicate Homeless(c: Core, v: Evidence, now: Time) {
    v.area == NO_AREA || (NoneSpans(c.db, v) && Outcomes.NoneJoinable(c, v.area, now, false))
  }

  /** The Evidence is stored in the Episode, which counts it; nothing else changes. */
  ghost predicate StoredIn(c: Core, id: EvidenceId, v: Evidence, e: EpisodeId, c': Core) {
    && e < |c.db.episodes|
    && c' == c.(db := c.db.(evidence := c.db.evidence[id := v.(episode := Some(e))],
                            episodes := c.db.episodes[e := c.db.episodes[e].(evidenceCount := c.db.episodes[e].evidenceCount + 1)]))
  }

  ghost predicate StoredAlone(c: Core, id: EvidenceId, v: Evidence, c': Core) {
    c' == c.(db := c.db.(evidence := c.db.evidence[id := v.(episode := None)]))
  }

  /** An open Episode accepts any Evidence, a finalizing one only that of the recorder. */
  predicate Accepting(db: Db, e: EpisodeId, recorder: bool) {
    e < |db.episodes| && (db.episodes[e].state == Active || db.episodes[e].state == Quiescent || (recorder && db.episodes[e].state == Finalizing))
  }

  lemma MatchOutcome(c: Core, v: Evidence, now: Time)
    ensures EvidenceMatch(c, v, now).None? <==> Homeless(c, v, now)
    ensures EvidenceMatch(c, v, now).Some? ==> Belongs(c, v, now, EvidenceMatch(c, v, now).value)
  {
    forall id: nat ensures Contains(c.db, v, id) <==> id < |c.db.episodes| && Spans(c.db.episodes[id], v.area, v.timestamp) {
    }
    Outcomes.QueryMeans(c, v.area, now, false);
  }

  /** Evidence that names no Episode, new or still unassigned, ends with the Episode it belongs to, and is
      unassigned exactly when there is none. */
  ghost predicate PutWhereItBelongs(c: Core, id: EvidenceId, v: Evidence, now: Time, c': Core) {
    if Homeless(c, v, now) then StoredAlone(c, id, v, c')
    else exists e :: Belongs(c, v, now, e) && StoredIn(c, id, v, e, c')
  }

  lemma NewOutcome(c: Core, id: EvidenceId, v: Evidence, target: Option<EpisodeId>, recorder: bool)
    requires id !in c.db.evidence && v.episode.None? && (target.Some? ==> Accepting(c.db, target.value, recorder))
    ensures var p := [CreateEvidence(id, v)] + if target.Some? then [LinkEvidence(id, target.value, recorder)] else [];
      var c' := c.(db := Run(c.db, p));
      if target.Some? then StoredIn(c, id, v, target.value, c') else StoredAlone(c, id, v, c')
  {
    var p := [CreateEvidence(id, v)] + if target.Some? then [LinkEvidence(id, target.value, recorder)] else [];
    RunShort(c.db, p);
    assert target.Some? ==> c.db.evidence[id := v][id := v.(episode := target)] == c.db.evidence[id := v.(episode := target)];
  }

  /** Ingesting Evidence.  Named Evidence goes to its Episode while that accepts it and is unassigned otherwise;
      a known row is only ever given the Episode it lacks. */
  lemma AddedOutcome(s: Sys, id: EvidenceId, v: Evidence, recorder: bool, now: Time)
    requires s.phase.Running?
    ensures var c, c' := s.core, Next(s, AddEvidence(id, v, recorder, now)).core;
      var accepted := v.episode.Some? && Accepting(c.db, v.episode.value, recorder);
      if id in c.db.evidence then
        if accepted && c.db.evidence[id].episode.None? then StoredIn(c, id, c.db.evidence[id], v.episode.value, c') else c' == c
      else if v.episode.None? then PutWhereItBelongs(c, id, v, now, c')
      else if accepted then StoredIn(c, id, v, v.episode.value, c') else StoredAlone(c, id, v, c')
  {
    var c, orphan := s.core, v.(episode := None);
    RunShort(c.db, EvidenceProgram(c, id, v, recorder, now));
    if id !in c.db.evidence {
      if v.episode.None? {
        MatchOutcome(c, v, now);
        NewOutcome(c, id, orphan, EvidenceMatch(c, orphan, now), false);
      } else {
        NewOutcome(c, id, orphan, if Accepting(c.db, v.episode.value, recorder) then v.episode else None, recorder);
      }
    }
  }

  /** A later attempt to place unassigned Evidence; any other row stays as it is. */
  lemma PlacedOutcome(s: Sys, id: EvidenceId, now: Time)
    requires !s.phase.Down?
    ensures var c, c' := s.core, Next(s, PlaceEvidence(id, now)).core;
      if id in c.db.evidence && c.db.evidence[id].episode.None? then PutWhereItBelongs(c, id, c.db.evidence[id], now, c')
      else c' == c
  {
    var c := s.core;
    RunShort(c.db, OrphanEvidenceProgram(c, id, now));
    if id in c.db.evidence && c.db.evidence[id].episode.None? {
      MatchOutcome(c, c.db.evidence[id], now);
      assert c.db.evidence[id := c.db.evidence[id].(episode := None)] == c.db.evidence;
    }
  }
}
