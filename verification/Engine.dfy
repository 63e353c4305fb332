/** The Episode engine as an object over the repository.  Each method performs the engine's steps
    in order and is proved to leave the state its specification function gives. */
module Engine {
  import opened Domain
  import opened Store
  import opened Lifecycle
  import opened RepositoryStore
  import opened Footprints
  import opened CrashRecovery
  import opened RecoveryRows

  /** Storing Evidence either raises or returns the row's Episode, if it has one. */
  datatype EvidenceResult = Raises | Stored(episode: Option<EpisodeId>)

  datatype IngestResult = DeviceNeedsSetup | Canonical(created: bool, conflict: bool)

  /** Where Evidence belongs is read from the Episode rows alone. */
  lemma MatchReadsRows(c: Core, t: Core, v: Evidence, now: Time)
    requires c.db.episodes == t.db.episodes && c.timeout == t.timeout && c.grace == t.grace
    ensures EvidenceMatch(c, v, now) == EvidenceMatch(t, v, now)
  {
    QueriesReadRows(c.db, t.db, |c.db.episodes|, v.area, v.timestamp, c.timeout, c.grace);
    QueriesReadRows(c.db, t.db, |c.db.episodes|, v.area, now, c.timeout, c.grace);
  }

  class EpisodeEngine {
    const repo: Repository
    const timeout: int
    var grace: int
    var revision: nat
    var deadlines: map<EpisodeId, Time>
    var leases: map<EpisodeId, Lease>
    var defer: bool
    // the Episodes whose finalizer some call is still awaiting
    var finalizingIds: set<EpisodeId>

    ghost function State(): Core
      reads this, repo
    {
      Core(repo.Data(), timeout, grace, revision, deadlines, leases, defer)
    }

    constructor (repo: Repository, timeout: int, grace: int)
      ensures this.repo == repo && State() == Core(repo.Data(), timeout, grace, 0, map[], map[], false)
      ensures finalizingIds == {}
    {
      this.repo, this.timeout, this.grace := repo, timeout, grace;
      revision, deadlines, leases, defer, finalizingIds := 0, map[], map[], false, {};
    }

    method RememberEpisodeDeadline(id: EpisodeId, deadline: Time) returns (effective: Time)
      modifies this`deadlines
      ensures State() == Remember(old(State()), id, deadline)
      ensures id in deadlines && effective == deadlines[id] && deadline <= effective
    {
      effective := deadline;
      if id in deadlines && deadline < deadlines[id] {
        effective := deadlines[id];
      }
      deadlines := deadlines[id := effective];
    }

    method PublishEpisodeUpdated(id: EpisodeId)
      requires id in deadlines
      modifies this`leases
      ensures State() == PublishLease(old(State()), id)
    {
      leases := leases[id := Lease(revision, deadlines[id] + grace)];
    }

    /** Correlates an Event that is inactive or may drive capture.  It raises when the Event turns out to belong
        to an Episode other than the one found, or other than the one it has just created. */
    method Correlate(k: Key, at: Time, window: int, recovery: bool) returns (raised: bool)
      requires k in repo.events && Correlatable(repo.events[k]) && LinkExists(k)
      requires repo.events[k].state.InactiveEvent? || repo.events[k].Drives()
      modifies this`deadlines, this`leases, repo
      ensures State() == Settle(old(State()), k, at, window, recovery)
      ensures raised <==> old(repo.events)[k].Drives() && old(repo.events)[k].area != NO_AREA
                          && HeldElsewhere(old(repo.events)[k], Target(old(State()), k, at, recovery))
    {
      var e := repo.events[k];
      raised := false;
      RunShort(repo.Data(), []);
      if e.area == NO_AREA {
        return;
      }
      if e.state.InactiveEvent? {
        CorrelateInactive(k);
        return;
      }
      var target: Option<EpisodeId> := None;
      if recovery {
        target := repo.FindEmptyEpisodeForRecovery(k, timeout, at, grace);
      }
      if target.None? {
        target := repo.FindOpenEpisodeForArea(e.area, timeout, at, grace, recovery);
      }
      assert target == Target(State(), k, at, recovery);
      RunShort(repo.Data(), [Commit.CreateEpisode(NewEpisode(e, at, window))]);
      if target.Some? {
        raised := JoinEpisode(k, target.value, at, window);
      } else {
        raised := OpenEpisode(k, at, window);
      }
    }

    method JoinEpisode(k: Key, id: EpisodeId, at: Time, window: int) returns (raised: bool)
      requires k in repo.events && id < |repo.episodes| && repo.episodes[id].Open()
      modifies this`deadlines, this`leases, repo
      ensures raised <==> HeldElsewhere(old(repo.events)[k], Some(id))
      ensures State() == if raised then old(State()) else
                RememberAndPublish(old(State()), Some(id), at + window)
                .(db := Run(old(repo.Data()), JoinProgram(old(repo.Data()), k, id, at, window)))
    {
      var persisted, end := repo.episodes[id].minimumEnd, at + window;
      raised := PersistJoin(k, id, at, window);
      if raised {
        return;
      }
      var deadline := if persisted.Some? && end < persisted.value then persisted.value else end;
      var _ := RememberEpisodeDeadline(id, deadline);
      PublishEpisodeUpdated(id);
    }

    /** The four transactions of joining, the last only for an Episode that was at rest. */
    method PersistJoin(k: Key, id: EpisodeId, at: Time, window: int) returns (raised: bool)
      requires k in repo.events && id < |repo.episodes| && repo.episodes[id].Open()
      modifies repo
      ensures raised <==> HeldElsewhere(old(repo.events)[k], Some(id))
      ensures repo.Data() == if raised then old(repo.Data())
                             else Run(old(repo.Data()), JoinProgram(old(repo.Data()), k, id, at, window))
    {
      RunShort(repo.Data(), JoinProgram(repo.Data(), k, id, at, window));
      var e, episode := repo.events[k], repo.episodes[id];
      var outcome := repo.AddEventToEpisode(k, id);
      if outcome.BelongsElsewhere? {
        return true;
      }
      raised := false;
      repo.UpdateEpisodeTimes(id, e.timestamp, Some(at));
      repo.ExtendEpisodeMinimumEnd(id, at + window);
      if episode.state.Quiescent? {
        repo.UpdateEpisodeState(id, Active, at);
      }
    }

    /** Opens an Episode; it stays empty when the Event already has one. */
    method OpenEpisode(k: Key, at: Time, window: int) returns (raised: bool)
      requires k in repo.events && LinkExists(k)
      modifies this`deadlines, this`leases, repo
      ensures raised <==> old(repo.events)[k].episode.Some?
      ensures State() == if raised
                         then old(State()).(db := Apply(old(repo.Data()), Commit.CreateEpisode(NewEpisode(old(repo.events)[k], at, window))))
                         else RememberAndPublish(old(State()), None, at + window)
                              .(db := Run(old(repo.Data()), CreateProgram(old(repo.Data()), k, at, window)))
    {
      var id := |repo.episodes|;
      raised := PersistNew(k, at, window);
      if raised {
        return;
      }
      var _ := RememberEpisodeDeadline(id, at + window);
      PublishEpisodeUpdated(id);
    }

    /** The Episode an Event names is a row of the table. */
    predicate LinkExists(k: Key)
      reads this, repo
      requires k in repo.events
    {
      repo.events[k].episode.Some? ==> repo.events[k].episode.value < |repo.episodes|
    }

    /** The four transactions of opening an Episode, or the first alone. */
    method PersistNew(k: Key, at: Time, window: int) returns (raised: bool)
      requires k in repo.events && LinkExists(k)
      modifies repo
      ensures raised <==> old(repo.events)[k].episode.Some?
      ensures repo.Data() == if raised then Apply(old(repo.Data()), Commit.CreateEpisode(NewEpisode(old(repo.events)[k], at, window)))
                             else Run(old(repo.Data()), CreateProgram(old(repo.Data()), k, at, window))
    {
      RunShort(repo.Data(), CreateProgram(repo.Data(), k, at, window));
      var e := repo.events[k];
      var id := repo.CreateEpisode(NewEpisode(e, at, window));
      var outcome := repo.AddEventToEpisode(k, id);
      if outcome.BelongsElsewhere? {
        return true;
      }
      raised := false;
      repo.UpdateEpisodeTimes(id, e.timestamp, Some(at));
      repo.ExtendEpisodeMinimumEnd(id, at + window);
    }

    method CorrelateInactive(k: Key)
      requires k in repo.events && repo.events[k].episode.None?
      modifies repo
      ensures repo.Data() == Run(old(repo.Data()), InactiveProgram(old(repo.Data()), k))
    {
      ghost var before := repo.Data();
      RunShort(before, InactiveProgram(before, k));
      var preceding := repo.FindPrecedingTransition(k);
      if preceding.None? || !repo.events[preceding.value].state.ActiveEvent?
         || repo.events[preceding.value].episode.None? {
        return;
      }
      var id := repo.events[preceding.value].episode.value;
      if |repo.episodes| <= id || !(repo.episodes[id].state.Active? || repo.episodes[id].state.Quiescent?) {
        return;
      }
      repo.UpdateEpisodeTimes(id, repo.events[k].timestamp, None);
      var outcome := repo.AddEventToEpisode(k, id);
      assert outcome.LinkDone?;
    }

    /** Attributes a class-filtered Event to an open Episode without extending it; raises as correlation does. */
    method AttachWithoutCapture(k: Key, at: Time, recovery: bool) returns (raised: bool)
      requires k in repo.events && repo.events[k].state.ActiveEvent?
      requires repo.events[k].decision.Some? && !repo.events[k].decision.value.allowed
      requires repo.events[k].decision.value.classFiltered
      modifies repo
      ensures State() == Settle(old(State()), k, at, 0, recovery)
      ensures raised ==> State() == old(State()) && old(repo.events)[k].episode.Some?
    {
      var e := repo.events[k];
      raised := false;
      if e.area == NO_AREA {
        return;
      }
      ghost var before := repo.Data();
      ghost var program := SettleProgram(State(), k, at, 0, recovery);
      RunShort(before, program);
      var target := repo.FindOpenEpisodeForArea(e.area, timeout, at, grace, recovery);
      if target.None? {
        repo.UpdateEventParticipation(k, NoOpenEpisode);
        return;
      }
      var outcome := repo.AddEventToEpisode(k, target.value);
      if outcome.BelongsElsewhere? {
        return true;
      }
      repo.UpdateEventParticipation(k, Attached);
    }

    /** Correlates an orphan from its stored decision, never from current policy. */
    method RecoverUnassignedActiveEvent(k: Key, fallback: int) returns (recovered: bool)
      requires k in repo.events
      modifies this`deadlines, this`leases, repo
      ensures State() == Recover(old(State()), k, fallback)
      ensures recovered <==> old(repo.events[k].Pending())
    {
      var e := repo.events[k];
      if !e.state.ActiveEvent? || e.episode.Some? || e.area == NO_AREA || e.decision.None? {
        return false;
      }
      var decision := e.decision.value;
      if !decision.allowed && !(decision.classFiltered && decision.attachment.None?) {
        return false;
      }
      var ingress := repo.EventRecoveryIngressTime(k);
      assert repo.Data() == AfterBackfill(old(State()), k).db;
      if decision.allowed {
        var window := if decision.window.Some? && 1 <= decision.window.value then decision.window.value else fallback;
        var _ := Correlate(k, ingress.value, window, true);
      } else {
        var _ := AttachWithoutCapture(k, ingress.value, true);
      }
      recovered := true;
    }

    /** Ingests one delivery.  A Device that still needs setup contributes nothing. */
    method IngestEvent(d: Delivery, needsSetup: bool, fallback: int) returns (result: IngestResult)
      requires d.Valid()
      modifies this`deadlines, this`leases, repo
      ensures needsSetup ==> result == DeviceNeedsSetup && State() == old(State())
      ensures !needsSetup ==>
                State() == Ingest(old(State()), d, fallback)
                && result == Canonical(d.key !in old(repo.events),
                                       d.key in old(repo.events) && d.Conflicts(old(repo.events)[d.key]))
    {
      if needsSetup {
        return DeviceNeedsSetup;
      }
      var created := repo.CanonicalizeEvent(d.key, d.NewEvent());
      if created {
        if d.receipt.Some? {
          repo.LinkIngestionReceipt(d.key, d.receipt.value);
        }
        assert State() == Canonicalized(old(State()), d);
        SettleCanonical(d);
        return Canonical(true, false);
      }
      var e := repo.events[d.key];
      var conflict := e.device != d.device || e.eventType != d.eventType || e.state != d.state;
      if conflict {
        return Canonical(false, true);
      }
      ReceiveDuplicate(d);
      if e.state.ActiveEvent? && e.episode.None? {
        var _ := RecoverUnassignedActiveEvent(d.key, fallback);
      }
      result := Canonical(false, false);
    }

    method SettleCanonical(d: Delivery)
      requires d.key in repo.events && Correlatable(repo.events[d.key]) && LinkExists(d.key)
      modifies this`deadlines, this`leases, repo
      ensures State() == Settle(old(State()), d.key, d.at, d.window, false)
    {
      var e := repo.events[d.key];
      RunShort(repo.Data(), []);
      if e.state.ActiveEvent? {
        if e.decision.None? || !e.decision.value.allowed {
          if e.decision.Some? && e.decision.value.classFiltered {
            var _ := AttachWithoutCapture(d.key, d.at, false);
          }
        } else {
          var _ := Correlate(d.key, d.at, d.window, false);
        }
      } else {
        var _ := Correlate(d.key, d.at, d.window, false);
      }
    }

    /** Links a duplicate's Receipt, after the first delivery's own if that is still unlinked. */
    method ReceiveDuplicate(d: Delivery)
      requires d.key in repo.events && !d.Conflicts(repo.events[d.key])
      modifies repo
      ensures State() == AfterReceipt(old(State()), d)
    {
      ghost var before := repo.Data();
      RunShort(before, ReceiptProgram(before, d));
      if d.receipt.Some? && repo.events[d.key].state.ActiveEvent? && repo.events[d.key].episode.None? {
        var _ := repo.EventRecoveryIngressTime(d.key);
      }
      if d.receipt.Some? {
        repo.LinkIngestionReceipt(d.key, d.receipt.value);
      }
    }

    /** Persists Evidence.  The Episode it names is used only while that Episode still accepts it. */
    method IngestEvidence(v: EvidenceId, e: Evidence, recorder: bool, now: Time) returns (result: EvidenceResult)
      modifies repo
      ensures repo.Data() == Run(old(repo.Data()), EvidenceProgram(old(State()), v, e, recorder, now))
      ensures result.Raises? <==>
                && v in old(repo.evidence) && old(repo.evidence)[v].episode.Some? && e.episode.Some?
                && old(AcceptsEvidence(repo.Data(), e.episode.value, recorder))
                && old(repo.evidence)[v].episode != e.episode
      ensures result.Stored? ==> v in repo.evidence && result.episode == repo.evidence[v].episode
    {
      RunShort(repo.Data(), EvidenceProgram(State(), v, e, recorder, now));
      var target := e.episode;
      if target.Some? && (|repo.episodes| <= target.value
                          || !(repo.episodes[target.value].Open()
                               || (recorder && repo.episodes[target.value].state.Finalizing?))) {
        target := None;
      }
      if v in repo.evidence {
        var persisted := repo.evidence[v];
        if target.Some? && persisted.episode != target {
          if persisted.episode.Some? {
            return Raises;
          }
          var outcome := repo.AddEvidenceToEpisode(v, target.value, recorder);
          assert outcome.LinkDone?;
        }
        return Stored(repo.evidence[v].episode);
      }
      StoreNewEvidence(v, e.(episode := None), target, e.episode.None?, recorder, now);
      result := Stored(repo.evidence[v].episode);
    }

    method StoreNewEvidence(v: EvidenceId, orphan: Evidence, target: Option<EpisodeId>, unnamed: bool,
                            recorder: bool, now: Time)
      requires v !in repo.evidence && orphan.episode.None? && !(target.Some? && unnamed)
      requires target.Some? ==> AcceptsEvidence(repo.Data(), target.value, recorder)
      modifies repo
      ensures v in repo.evidence
      ensures repo.Data() ==
                var created := Apply(old(repo.Data()), Commit.CreateEvidence(v, orphan));
                var place := if unnamed then EvidenceMatch(old(State()), orphan, now) else target;
                if place.Some? then Apply(created, LinkEvidence(v, place.value, recorder && !unnamed)) else created
    {
      var ok := repo.CreateEvidence(v, orphan);
      if target.Some? {
        var outcome := repo.AddEvidenceToEpisode(v, target.value, recorder);
        assert outcome.LinkDone?;
      } else if unnamed {
        MatchReadsRows(old(State()), State(), orphan, now);
        MatchOrphanEvidence(v, now);
      }
    }

    /** Places unassigned Evidence by when it was observed, else by what is open now. */
    method MatchOrphanEvidence(v: EvidenceId, now: Time)
      requires v in repo.evidence && repo.evidence[v].episode.None?
      modifies repo
      ensures repo.Data() == var target := EvidenceMatch(old(State()), old(repo.evidence)[v], now);
                             if target.Some? then Apply(old(repo.Data()), LinkEvidence(v, target.value, false))
                             else old(repo.Data())
    {
      var e := repo.evidence[v];
      if e.area == NO_AREA {
        return;
      }
      var target := repo.FindEpisodeForAreaAt(e.area, e.timestamp);
      if target.None? {
        target := repo.FindOpenEpisodeForArea(e.area, timeout, now, grace, false);
      }
      if target.Some? {
        var outcome := repo.AddEvidenceToEpisode(v, target.value, false);
        assert outcome.LinkDone?;
      }
    }

    /** A timer pass; unless finalization is deferred, every sealed Episode is forgotten, and those no other
        call is finalizing are closed if their finalizer succeeds.  A failing finalizer leaves its Episode
        finalizing. */
    method CloseTimedOutEpisodes(now: Time, succeeded: set<EpisodeId>, endedAt: Time)
      modifies this, repo
      ensures State() == CloseReady(Tick(old(State()), now), succeeded - finalizingIds, endedAt)
      ensures finalizingIds == old(finalizingIds)
    {
      var _, finalizing := repo.TransitionTimedOutEpisodes(timeout, grace, now);
      ghost var ticked := Tick(old(State()), now);
      if defer {
        return;
      }
      var n := 0;
      while n < |finalizing|
        invariant n <= |finalizing| && !defer && finalizingIds == old(finalizingIds)
        invariant State() == ClosedSome(ticked, old(deadlines), finalizing[..n], succeeded - finalizingIds, endedAt)
      {
        assert finalizing[n] in finalizing;
        CloseOne(finalizing[n], succeeded, endedAt);
        ClosedSomeNext(ticked, old(deadlines), finalizing, n, succeeded - finalizingIds, endedAt);
        n := n + 1;
      }
      assert finalizing[..n] == finalizing;
      ClosedSomeIsAll(ticked, old(deadlines), finalizing, succeeded - finalizingIds, endedAt);
    }

    /** Forgets a sealed Episode and, unless another call is at it, closes it if its finalizer succeeds. */
    method CloseOne(id: EpisodeId, succeeded: set<EpisodeId>, endedAt: Time)
      modifies this`deadlines, this`finalizingIds, repo
      ensures State() == old(State()).(deadlines := old(deadlines) - {id},
                                       db := if id in succeeded - finalizingIds then Apply(old(repo.Data()), MarkClosed(id, endedAt))
                                             else old(repo.Data()))
      ensures finalizingIds == old(finalizingIds)
    {
      deadlines := deadlines - {id};
      if id in finalizingIds {
        return;
      }
      finalizingIds := finalizingIds + {id};
      if id in succeeded {
        var _ := repo.MarkEpisodeClosed(id, endedAt);
      }
      finalizingIds := finalizingIds - {id};
    }

    /** Applies a new grace at once: persists it, supersedes every lease and runs a timer pass. */
    method SetQuiescentGrace(g: int, now: Time, succeeded: set<EpisodeId>, endedAt: Time) returns (ok: bool)
      modifies this, repo
      ensures ok <==> ValidGrace(g)
      ensures State() == if ok then CloseReady(Tick(SetGrace(old(State()), g), now), succeeded - old(finalizingIds), endedAt)
                         else old(State())
    {
      if g < MIN_GRACE || MAX_GRACE < g {
        return false;
      }
      repo.SetQuiescentGrace(g);
      grace := g;
      revision := revision + 1;
      PublishCaptureLeaseUpdates();
      assert State() == SetGrace(old(State()), g);
      CloseTimedOutEpisodes(now, succeeded, endedAt);
      ok := true;
    }

    method PublishCaptureLeaseUpdates()
      modifies this`leases
      ensures State() == old(State()).(leases := old(leases)
                + map id | id in deadlines :: Lease(revision, deadlines[id] + grace))
    {
      var todo := deadlines.Keys;
      while todo != {}
        invariant todo <= deadlines.Keys
        invariant grace == old(grace) && revision == old(revision) && deadlines == old(deadlines) && defer == old(defer)
        invariant leases.Keys == old(leases).Keys + (deadlines.Keys - todo)
        invariant forall id | id in leases ::
                    leases[id] == if id in deadlines && id !in todo then Lease(revision, deadlines[id] + grace)
                                  else old(leases)[id]
        decreases todo
      {
        var id :| id in todo;
        PublishEpisodeUpdated(id);
        todo := todo - {id};
      }
      assert leases == old(leases) + map id | id in deadlines :: Lease(revision, deadlines[id] + grace);
    }

    method RestoreEpisodeDeadlines()
      modifies this`deadlines
      ensures State() == old(State()).(deadlines := old(deadlines) + RestoredDeadlines(repo.Data(), timeout))
    {
      var row := 0;
      while row < |repo.episodes|
        invariant row <= |repo.episodes|
        invariant grace == old(grace) && revision == old(revision) && leases == old(leases) && defer == old(defer)
        invariant forall id: nat :: id in deadlines <==>
                    id in old(deadlines) || (id < row && repo.episodes[id].Open())
        invariant forall id | id in deadlines ::
                    deadlines[id] == if id < row && repo.episodes[id].Open() then repo.episodes[id].Deadline(timeout)
                                     else old(deadlines)[id]
      {
        if repo.episodes[row].state.Active? || repo.episodes[row].state.Quiescent? {
          deadlines := deadlines[row := repo.episodes[row].Deadline(timeout)];
        }
        row := row + 1;
      }
      assert deadlines == old(deadlines) + RestoredDeadlines(repo.Data(), timeout);
    }

    // ----- recovery at startup ---------------------------------------------------------------------

    /** Backfills the Receipts of one page. */
    method BackfillPage(page: seq<RecoveryScan.Row>)
      requires Consistent(repo.Data()) && forall r | r in page :: r in TimestampRows(repo.Data())
      modifies repo
      ensures State() == BackfillAll(old(State()), Ids(page))
      ensures Consistent(repo.Data()) && TimestampRows(repo.Data()) == TimestampRows(old(repo.Data()))
      ensures BackfilledSince(old(repo.Data()), repo.Data(), page)
    {
      var n := 0;
      while n < |page|
        invariant n <= |page| && BackfillPageUnderWay(old(State()), State(), page, n)
      {
        BackfillPageGoesOn(old(State()), State(), page, n);
        var _ := repo.EventRecoveryIngressTime(page[n].id);
        n := n + 1;
      }
      assert page[..n] == page;
    }

    /** A page of the backfill pass. */
    method ListTimestampPage(q: Time -> int, cursor: Option<RecoveryScan.Row>, limit: nat) returns (page: seq<RecoveryScan.Row>)
      ensures RecoveryScan.IsPage(q, TimestampRows(repo.Data()), cursor, limit, page)
    {
      PendingRowsAreUnique(repo.Data());
      page := RecoveryScan.ListPage(q, TimestampRows(Db(repo.episodes, repo.events, repo.evidence, repo.grace)), cursor, limit);
    }

    /** A page of the recovery pass. */
    method ListPendingPage(q: Time -> int, cursor: Option<RecoveryScan.Row>, limit: nat) returns (page: seq<RecoveryScan.Row>)
      ensures RecoveryScan.IsPage(q, PendingRows(repo.Data()), cursor, limit, page)
    {
      PendingRowsAreUnique(repo.Data());
      page := RecoveryScan.ListPage(q, PendingRows(Db(repo.episodes, repo.events, repo.evidence, repo.grace)), cursor, limit);
    }

    /** Recovers the rows of one page, in the order of the page. */
    method RecoverPage(rows: seq<RecoveryScan.Row>, fallback: int)
      requires Consistent(repo.Data()) && 1 <= fallback && forall r | r in rows :: r in PendingRows(repo.Data())
      requires forall i, j | 0 <= i < j < |rows| :: rows[i] != rows[j]
      modifies this`deadlines, this`leases, repo
      ensures State() == RecoverAll(old(State()), Ids(rows), fallback)
      ensures Consistent(repo.Data()) && PendingRows(repo.Data()) == PendingRows(old(repo.Data())) - set r | r in rows
    {
      var n := 0;
      while n < |rows|
        invariant n <= |rows| && PageUnderWay(old(State()), State(), rows, n, fallback)
      {
        PageGoesOn(old(State()), State(), rows, n, fallback);
        var _ := RecoverUnassignedActiveEvent(rows[n].id, fallback);
        n := n + 1;
      }
      assert rows[..n] == rows;
    }

    /** First pass at startup: links every Receipt that can be identified to its pending Event, page by page. */
    method BackfillUnassigned(q: Time -> int, limit: nat) returns (order: seq<Key>)
      requires Consistent(repo.Data()) && limit > 0 && RecoveryScan.Monotone(q)
      modifies repo
      ensures State() == BackfillAll(old(State()), order) && Consistent(repo.Data())
      ensures NothingToBackfill(repo.Data())
    {
      ghost var c := State();
      var visited: seq<RecoveryScan.Row>, cursors: seq<RecoveryScan.Row> := [], [];
      while true
        invariant BackfillUnderWay(q, c, State(), visited, cursors)
        decreases |RecoveryScan.Remaining(q, TimestampRows(c.db), RecoveryScan.Cursor(cursors))|
      {
        var page := ListTimestampPage(q, RecoveryScan.Cursor(cursors), limit);
        if page == [] {
          BackfillDone(q, c, State(), visited, cursors, limit);
          return Ids(visited);
        }
        BackfillNextPage(q, c, visited, cursors, limit, page);
        visited := visited + page;
        cursors := cursors + [RecoveryScan.NextCursor(page, false)];
      }
    }

    method BackfillNextPage(q: Time -> int, ghost c: Core, ghost visited: seq<RecoveryScan.Row>,
                            ghost cursors: seq<RecoveryScan.Row>, limit: nat, page: seq<RecoveryScan.Row>)
      requires RecoveryScan.Monotone(q) && BackfillUnderWay(q, c, State(), visited, cursors) && page != []
      requires RecoveryScan.IsPage(q, TimestampRows(repo.Data()), RecoveryScan.Cursor(cursors), limit, page)
      modifies repo
      ensures BackfillUnderWay(q, c, State(), visited + page, cursors + [RecoveryScan.NextCursor(page, false)])
      ensures |RecoveryScan.Remaining(q, TimestampRows(c.db), Some(RecoveryScan.NextCursor(page, false)))|
              < |RecoveryScan.Remaining(q, TimestampRows(c.db), RecoveryScan.Cursor(cursors))|
    {
      BackfillPage(page);
      BackfillGoesOn(q, c, old(State()), State(), visited, cursors, limit, page);
    }

    /** Second pass: recovers the pending Events page by page, each page in ingress order. */
    method RecoverUnassigned(q: Time -> int, limit: nat, fallback: int) returns (order: seq<Key>)
      requires Consistent(repo.Data()) && limit > 0 && 1 <= fallback && RecoveryScan.Monotone(q)
      modifies this`deadlines, this`leases, repo
      ensures State() == RecoverAll(old(State()), order, fallback) && Consistent(repo.Data())
      ensures NothingPending(repo.Data())
    {
      ghost var c := State();
      var visited: seq<RecoveryScan.Row>, cursors: seq<RecoveryScan.Row> := [], [];
      while true
        invariant RecoverUnderWay(q, c, State(), visited, cursors, fallback)
        decreases |RecoveryScan.Remaining(q, PendingRows(c.db), RecoveryScan.Cursor(cursors))|
      {
        var page := ListPendingPage(q, RecoveryScan.Cursor(cursors), limit);
        if page == [] {
          AllVisited(q, PendingRows(c.db), PendingRows(State().db), visited, cursors, limit);
          assert PendingRows(State().db) == {};
          NoRowsNothingPending(repo.Data());
          return Ids(visited);
        }
        SortedDistinct(q, page);
        ghost var now := State();
        RecoverPage(RecoveryScan.SortedByTime(page), fallback);
        RecoverGoesOn(q, c, now, State(), visited, cursors, limit, page, fallback);
        visited := visited + RecoveryScan.SortedByTime(page);
        cursors := cursors + [RecoveryScan.NextCursor(page, true)];
      }
    }

    /** Both passes; whatever was pending is settled. */
    method RecoverUnassignedActiveEvents(q: Time -> int, limit: nat, fallback: int)
      returns (backfilled: seq<Key>, recovered: seq<Key>)
      requires Consistent(repo.Data()) && limit > 0 && 1 <= fallback && RecoveryScan.Monotone(q)
      modifies this`deadlines, this`leases, repo
      ensures State() == RecoverAll(BackfillAll(old(State()), backfilled), recovered, fallback)
      ensures Consistent(repo.Data()) && NothingPending(repo.Data())
    {
      backfilled := BackfillUnassigned(q, limit);
      recovered := RecoverUnassigned(q, limit, fallback);
    }

    /** A start of a fresh engine: restore, recover, then a timer pass, which closes Episodes unless
        finalization is deferred. */
    method Start(deferred: bool, q: Time -> int, limit: nat, fallback: int, now: Time, succeeded: set<EpisodeId>, endedAt: Time)
      returns (backfilled: seq<Key>, recovered: seq<Key>)
      requires deadlines == map[] && leases == map[] && revision == 0 && finalizingIds == {}
      requires Consistent(repo.Data()) && limit > 0 && 1 <= fallback && RecoveryScan.Monotone(q)
      modifies this, repo
      ensures var ready := RecoverAll(BackfillAll(Restart(old(State())).(defer := deferred), backfilled), recovered, fallback);
              NothingPending(ready.db) && State() == CloseReady(Tick(ready, now), succeeded, endedAt)
    {
      grace := repo.grace;
      defer := deferred;
      RestoreEpisodeDeadlines();
      assert map[] + RestoredDeadlines(repo.Data(), timeout) == RestoredDeadlines(repo.Data(), timeout);
      assert State() == Restart(old(State())).(defer := deferred);
      backfilled, recovered := RecoverUnassignedActiveEvents(q, limit, fallback);
      CloseTimedOutEpisodes(now, succeeded, endedAt);
    }

    /** Ends the deferral once dependent services have recovered. */
    method CompleteFinalizingEpisodes(now: Time, succeeded: set<EpisodeId>, endedAt: Time)
      modifies this, repo
      ensures State() == CloseReady(Tick(old(State()).(defer := false), now), succeeded - old(finalizingIds), endedAt)
    {
      defer := false;
      CloseTimedOutEpisodes(now, succeeded, endedAt);
    }
  }
}
