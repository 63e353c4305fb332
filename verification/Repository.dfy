/** The repository as an object: rows updated in place, one committed transaction a method. */
module RepositoryStore {
  import opened Domain
  import opened Store

  datatype LinkOutcome = LinkDone | AlreadyLinked | NoSuchEvent | BelongsElsewhere | Sealed

  class Repository {
    var episodes: seq<Episode>
    var events: map<Key, Event>
    var evidence: map<EvidenceId, Evidence>
    var grace: int

    ghost function Data(): Db
      reads this
    {
      Db(episodes, events, evidence, grace)
    }

    constructor (grace: int)
      ensures Data() == Db([], map[], map[], grace)
    {
      episodes, events, evidence, this.grace := [], map[], map[], grace;
    }

    /** Inserts the row unless its dedup key is already known. */
    method CanonicalizeEvent(k: Key, e: Event) returns (created: bool)
      modifies this
      ensures Data() == Apply(old(Data()), InsertEvent(k, e))
      ensures created <==> k !in old(events)
    {
      created := k !in events;
      if created {
        events := events[k := e];
      }
    }

    method LinkIngestionReceipt(k: Key, received: Time)
      requires k in events
      modifies this
      ensures Data() == Apply(old(Data()), LinkReceipt(k, received))
    {
      var e := events[k];
      var earliest := received;
      if e.ingress.Some? && e.ingress.value < received {
        earliest := e.ingress.value;
      }
      events := events[k := e.(ingress := Some(earliest), unlinked := None)];
    }

    /** Links the one Receipt that carries the Event's own payload path, then tells the ingress time. */
    method EventRecoveryIngressTime(k: Key) returns (ingress: Option<Time>)
      requires k in events
      modifies this
      ensures Data() == Apply(old(Data()), Backfill(k))
      ensures ingress == events[k].RecoveryIngress()
    {
      var e := events[k];
      if e.ingress.None? && e.episode.None? && e.unlinked.Some? {
        LinkIngestionReceipt(k, e.unlinked.value);
      } else {
        assert events[k := e] == events;
      }
      if events[k].ingress.Some? {
        ingress := events[k].ingress;
      } else if events[k].decision.Some? {
        ingress := Some(events[k].decision.value.evaluatedAt);
      } else {
        ingress := None;
      }
    }

    method CreateEpisode(e: Episode) returns (id: EpisodeId)
      modifies this
      ensures Data() == Apply(old(Data()), Commit.CreateEpisode(e)) && id == |old(episodes)|
    {
      id := |episodes|;
      episodes := episodes + [e];
    }

    method AddEventToEpisode(k: Key, id: EpisodeId) returns (outcome: LinkOutcome)
      modifies this
      ensures Data() == Apply(old(Data()), LinkEvent(k, id))
      ensures outcome.LinkDone? <==> old(CanLinkEvent(Data(), k, id))
      ensures outcome.NoSuchEvent? <==> k !in old(events)
      ensures outcome.AlreadyLinked? <==> k in old(events) && old(events)[k].episode == Some(id)
      ensures outcome.BelongsElsewhere? <==>
                k in old(events) && old(events)[k].episode.Some? && old(events)[k].episode != Some(id)
    {
      if k !in events {
        return NoSuchEvent;
      }
      var e := events[k];
      if e.episode == Some(id) {
        return AlreadyLinked;
      }
      if e.episode.Some? {
        return BelongsElsewhere;
      }
      if |episodes| <= id || !(episodes[id].state.Active? || episodes[id].state.Quiescent?) {
        return Sealed;
      }
      events := events[k := e.(episode := Some(id))];
      episodes := episodes[id := episodes[id].(eventCount := episodes[id].eventCount + 1)];
      outcome := LinkDone;
    }

    method UpdateEpisodeTimes(id: EpisodeId, eventTime: Time, activity: Option<Time>)
      requires id < |episodes|
      modifies this
      ensures Data() == Apply(old(Data()), UpdateTimes(id, eventTime, activity))
    {
      var e := episodes[id];
      if e.lastEvent.None? || e.lastEvent.value < eventTime {
        e := e.(lastEvent := Some(eventTime));
      }
      if activity.Some? {
        e := e.(lastActivity := activity);
      }
      episodes := episodes[id := e];
    }

    method ExtendEpisodeMinimumEnd(id: EpisodeId, end: Time)
      requires id < |episodes|
      modifies this
      ensures Data() == Apply(old(Data()), ExtendMinimumEnd(id, end))
    {
      var e := episodes[id];
      if e.minimumEnd.None? || e.minimumEnd.value < end {
        episodes := episodes[id := e.(minimumEnd := Some(end))];
      } else {
        assert episodes[id := e] == episodes;
      }
    }

    /** Sets the state; closing this way also stamps the end. */
    method UpdateEpisodeState(id: EpisodeId, state: EpisodeState, now: Time)
      requires id < |episodes|
      modifies this
      ensures !state.Closed? && !state.Archived? ==> Data() == Apply(old(Data()), SetState(id, state))
      ensures state.Closed? || state.Archived? ==>
                Data() == old(Data()).(episodes := old(episodes)[id := old(episodes)[id].(state := state, endTime := Some(now))])
    {
      var e := episodes[id].(state := state);
      if state.Closed? || state.Archived? {
        e := e.(endTime := Some(now));
      }
      episodes := episodes[id := e];
    }

    method UpdateEventParticipation(k: Key, attachment: Attachment)
      requires k in events && events[k].decision.Some?
      modifies this
      ensures Data() == Apply(old(Data()), RecordAttachment(k, attachment))
    {
      var decision := events[k].decision.value.(attachment := Some(attachment));
      events := events[k := events[k].(decision := Some(decision))];
    }

    /** Closes a finalizing Episode; harmless when it is already closed, an error otherwise. */
    method MarkEpisodeClosed(id: EpisodeId, endedAt: Time) returns (ok: bool)
      modifies this
      ensures Data() == Apply(old(Data()), MarkClosed(id, endedAt))
      ensures ok <==> id < |episodes| && episodes[id].state.Closed?
    {
      if |episodes| <= id {
        return false;
      }
      if episodes[id].state.Closed? {
        return true;
      }
      if !episodes[id].state.Finalizing? {
        return false;
      }
      episodes := episodes[id := episodes[id].(state := Closed, endTime := Some(endedAt))];
      ok := true;
    }

    /** The timer pass, row by row.  It reports the rows it rested and every row now awaiting its
        finalizer, in table order. */
    method TransitionTimedOutEpisodes(timeout: int, grace: int, now: Time)
      returns (quiescent: seq<EpisodeId>, finalizing: seq<EpisodeId>)
      modifies this
      ensures Data() == Apply(old(Data()), TimeOut(now, timeout, grace))
      ensures forall id: nat :: id in finalizing <==> id < |episodes| && episodes[id].state.Finalizing?
      ensures forall id: nat :: id in quiescent <==>
                id < |episodes| && episodes[id].state.Quiescent? && old(episodes)[id].state.Active?
      ensures forall i, j | 0 <= i < j < |finalizing| :: finalizing[i] < finalizing[j]
      ensures forall i, j | 0 <= i < j < |quiescent| :: quiescent[i] < quiescent[j]
    {
      quiescent, finalizing := [], [];
      var row := 0;
      while row < |episodes|
        invariant row <= |episodes| == |old(episodes)|
        invariant events == old(events) && evidence == old(evidence) && this.grace == old(this.grace)
        invariant forall i | 0 <= i < row :: episodes[i] == TimeOutRow(old(episodes)[i], now, timeout, grace)
        invariant forall i | row <= i < |episodes| :: episodes[i] == old(episodes)[i]
        invariant forall id: nat :: id in finalizing <==> id < row && episodes[id].state.Finalizing?
        invariant forall id: nat :: id in quiescent <==>
                    id < row && episodes[id].state.Quiescent? && old(episodes)[id].state.Active?
        invariant forall i, j | 0 <= i < j < |finalizing| :: finalizing[i] < finalizing[j]
        invariant forall i, j | 0 <= i < j < |quiescent| :: quiescent[i] < quiescent[j]
        invariant forall i | 0 <= i < |finalizing| :: finalizing[i] in finalizing
        invariant forall i | 0 <= i < |quiescent| :: quiescent[i] in quiescent
      {
        var e := episodes[row];
        if e.state.Finalizing? {
          finalizing := finalizing + [row];
        } else if e.state.Active? || e.state.Quiescent? {
          var deadline := if e.minimumEnd.Some? then e.minimumEnd.value
                          else (if e.lastActivity.Some? then e.lastActivity.value
                                else if e.lastEvent.Some? then e.lastEvent.value else e.start) + timeout;
          if deadline + grace < now {
            episodes := episodes[row := e.(state := EpisodeState.Finalizing, endTime := None)];
            finalizing := finalizing + [row];
          } else if e.state.Active? && deadline <= now {
            episodes := episodes[row := e.(state := EpisodeState.Quiescent)];
            quiescent := quiescent + [row];
          }
        }
        row := row + 1;
      }
      assert episodes == Apply(old(Data()), TimeOut(now, timeout, grace)).episodes;
    }

    /** Whether some active Event of the Episode whose decision allows it arrived no later than `at`. */
    method HadActivityBy(id: EpisodeId, at: Time) returns (found: bool)
      ensures found <==> HasActivityBy(events, id, at)
    {
      var todo := events.Keys;
      found := false;
      while todo != {}
        invariant todo <= events.Keys && !found
        invariant forall k | k in events && k !in todo ::
                    !(events[k].episode == Some(id) && events[k].state.ActiveEvent?
                      && events[k].decision.Some? && events[k].decision.value.allowed
                      && events[k].IngressOrTimestamp() <= at)
        decreases todo
      {
        var k :| k in todo;
        var e := events[k];
        if e.episode == Some(id) && e.state.ActiveEvent?
           && e.decision.Some? && e.decision.value.allowed && e.IngressOrTimestamp() <= at {
          return true;
        }
        todo := todo - {k};
      }
    }

    /** The query over open Episodes: rows with a persisted deadline and older rows without one are
        bounded by their own cut-offs, and the most recently active row wins. */
    method FindOpenEpisodeForArea(area: Area, timeout: int, at: Time, grace: int, requireExistingActivity: bool)
      returns (found: Option<EpisodeId>)
      ensures found == FindOpenEpisode(Data(), area, at, timeout, grace, requireExistingActivity)
    {
      var graceCutoff, fallbackCutoff := at - grace, at - (timeout + grace);
      found := None;
      var row := 0;
      while row < |episodes|
        invariant row <= |episodes|
        invariant found == OpenEpisodeUpTo(Data(), row, area, at, timeout, grace, requireExistingActivity)
      {
        var e := episodes[row];
        var eligible := e.area == area && (e.state.Active? || e.state.Quiescent?)
                        && ((e.minimumEnd.Some? && graceCutoff <= e.minimumEnd.value)
                            || (e.minimumEnd.None? && fallbackCutoff <= e.Baseline()));
        if eligible && requireExistingActivity {
          eligible := HadActivityBy(row, at);
        }
        if eligible && (found.None? || episodes[found.value].Baseline() < e.Baseline()) {
          found := Some(row);
        }
        row := row + 1;
      }
    }

    method HasLinkedEvents(id: EpisodeId) returns (linked: bool)
      ensures linked <==> HasEvents(events, id)
    {
      var todo := events.Keys;
      while todo != {}
        invariant todo <= events.Keys
        invariant forall k | k in events && k !in todo :: events[k].episode != Some(id)
        decreases todo
      {
        var k :| k in todo;
        if events[k].episode == Some(id) {
          return true;
        }
        todo := todo - {k};
      }
      linked := false;
    }

    /** Counts the empty open Episodes that match the orphan and returns one only if it is unique. */
    method FindEmptyEpisodeForRecovery(k: Key, timeout: int, at: Time, grace: int)
      returns (found: Option<EpisodeId>)
      requires k in events
      ensures found == FindShell(Data(), k, at, timeout, grace)
    {
      var orphan := events[k];
      if orphan.episode.Some? || !orphan.state.ActiveEvent? {
        return None;
      }
      var matching: seq<EpisodeId> := [];
      var row := 0;
      while row < |episodes|
        invariant row <= |episodes|
        invariant forall id: nat :: id in matching <==> id < row && MatchingShell(Data(), id, orphan)
        invariant forall i, j | 0 <= i < j < |matching| :: matching[i] < matching[j]
        invariant forall i | 0 <= i < |matching| :: matching[i] in matching
      {
        var e := episodes[row];
        if e.area == orphan.area && e.start == orphan.timestamp && (e.state.Active? || e.state.Quiescent?)
           && e.eventCount == 0 {
          var linked := HasLinkedEvents(row);
          if !linked {
            matching := matching + [row];
          }
        }
        row := row + 1;
      }
      found := None;
      if |matching| == 1 {
        var e := episodes[matching[0]];
        assert forall j: nat :: MatchingShell(Data(), j, orphan) <==> j == matching[0];
        if (e.minimumEnd.Some? && at - grace <= e.minimumEnd.value)
           || (e.minimumEnd.None? && at - (timeout + grace) <= e.Baseline()) {
          found := Some(matching[0]);
          assert SoleShell(Data(), matching[0], orphan, at, timeout, grace);
        }
      } else if |matching| > 1 {
        assert matching[0] in matching && matching[1] in matching;
      } else {
        assert forall j: nat :: !MatchingShell(Data(), j, orphan);
      }
    }

    /** The latest earlier transition of the same device, Area and type. */
    method FindPrecedingTransition(k: Key) returns (found: Option<Key>)
      requires k in events
      ensures found == FindPreceding(events, k)
    {
      var todo := events.Keys;
      found := None;
      while todo != {}
        invariant todo <= events.Keys
        invariant found.None? ==> forall j | j in events && j !in todo :: !Precedes(events, j, k)
        invariant found.Some? ==> Precedes(events, found.value, k)
        invariant found.Some? ==> forall j | j in events && j !in todo && Precedes(events, j, k) ::
                                    LaterOrSame(events, found.value, j)
        decreases todo
      {
        var j :| j in todo;
        var e, o := events[k], events[j];
        if j != k && o.device == e.device && o.area == e.area && o.eventType == e.eventType && o.timestamp <= e.timestamp {
          if found.None? || events[found.value].timestamp < o.timestamp
             || (events[found.value].timestamp == o.timestamp && found.value <= j) {
            found := Some(j);
          }
        }
        todo := todo - {j};
      }
      var spec := FindPreceding(events, k);
      if found.Some? {
        assert Precedes(events, found.value, k);
        assert LaterOrSame(events, found.value, spec.value) && LaterOrSame(events, spec.value, found.value);
      }
    }

    method FindEpisodeForAreaAt(area: Area, at: Time) returns (found: Option<EpisodeId>)
      ensures found == SpanningEpisodeUpTo(Data(), |episodes|, area, at)
    {
      found := None;
      var row := 0;
      while row < |episodes|
        invariant row <= |episodes|
        invariant found == SpanningEpisodeUpTo(Data(), row, area, at)
      {
        var e := episodes[row];
        if e.area == area && (e.state.Active? || e.state.Quiescent?) && e.start <= at
           && (e.endTime.None? || at <= e.endTime.value)
           && (found.None? || episodes[found.value].start < e.start) {
          found := Some(row);
        }
        row := row + 1;
      }
    }

    /** Inserts the row; an id that is already known raises and changes nothing. */
    method CreateEvidence(v: EvidenceId, e: Evidence) returns (ok: bool)
      modifies this
      ensures Data() == Apply(old(Data()), Commit.CreateEvidence(v, e))
      ensures ok <==> v !in old(evidence)
    {
      ok := v !in evidence;
      if ok {
        evidence := evidence[v := e];
      }
    }

    method AddEvidenceToEpisode(v: EvidenceId, id: EpisodeId, allowFinalizing: bool) returns (outcome: LinkOutcome)
      modifies this
      ensures Data() == Apply(old(Data()), LinkEvidence(v, id, allowFinalizing))
      ensures outcome.LinkDone? <==> old(CanLinkEvidence(Data(), v, id, allowFinalizing))
      ensures outcome.AlreadyLinked? <==> v in old(evidence) && old(evidence)[v].episode == Some(id)
    {
      if v !in evidence {
        return NoSuchEvent;
      }
      if evidence[v].episode == Some(id) {
        return AlreadyLinked;
      }
      if evidence[v].episode.Some? {
        return BelongsElsewhere;
      }
      if |episodes| <= id
         || !(episodes[id].state.Active? || episodes[id].state.Quiescent?
              || (allowFinalizing && episodes[id].state.Finalizing?)) {
        return Sealed;
      }
      evidence := evidence[v := evidence[v].(episode := Some(id))];
      episodes := episodes[id := episodes[id].(evidenceCount := episodes[id].evidenceCount + 1)];
      outcome := LinkDone;
    }

    method SetQuiescentGrace(g: int)
      modifies this
      ensures Data() == Apply(old(Data()), SaveGrace(g))
    {
      grace := g;
    }
  }
}
