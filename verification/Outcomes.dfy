/** What settling an Event leaves behind, said of the rows alone: which Episode it ends in, what that Episode's
    row says then, what the engine remembers of it, and that nothing else changes. */
module Outcomes {
  import opened Domain
  import opened Store
  import opened Lifecycle
  import opened Footprints

  // ----- rows -------------------------------------------------------------------------------------------

  /** `after` is the later of `t` and `before`, if that is anything. */
  predicate LaterOf(before: Option<Time>, t: Time, after: Option<Time>) {
    && after.Some? && t <= after.value && (before.Some? ==> before.value <= after.value)
    && (after == Some(t) || after == before)
  }

  /** A driving Event has joined the row: whether it was active or at rest, it is active now. */
  predicate RowJoined(r: Episode, r': Episode, timestamp: Time, at: Time, end: Time) {
    && r'.state == Active && r'.lastActivity == Some(at) && r'.eventCount == r.eventCount + 1
    && LaterOf(r.minimumEnd, end, r'.minimumEnd) && LaterOf(r.lastEvent, timestamp, r'.lastEvent)
    && r'.area == r.area && r'.start == r.start && r'.endTime == r.endTime && r'.evidenceCount == r.evidenceCount
  }

  /** Only the Event of key `k` changes, to `e`, and only the row `id`. */
  ghost predicate OnlyRow(db: Db, k: Key, e: Event, id: EpisodeId, db': Db) {
    && id < |db.episodes| == |db'.episodes|
    && (forall j | 0 <= j < |db.episodes| && j != id :: db'.episodes[j] == db.episodes[j])
    && db'.events == db.events[k := e] && db'.evidence == db.evidence && db'.grace == db.grace
  }

  /** The Event has joined the Episode; `e` is its row before. */
  ghost predicate JoinedInto(db: Db, k: Key, e: Event, at: Time, end: Time, id: EpisodeId, db': Db) {
    OnlyRow(db, k, e.(episode := Some(id)), id, db') && RowJoined(db.episodes[id], db'.episodes[id], e.timestamp, at, end)
  }

  /** A new Episode has been opened for the Event. */
  ghost predicate OpenedFor(db: Db, k: Key, e: Event, at: Time, end: Time, db': Db) {
    && db'.episodes == db.episodes
         + [Episode(e.area, e.timestamp, Some(e.timestamp), Some(at), Some(end), None, Active, 1, 0)]
    && db'.events == db.events[k := e.(episode := Some(|db.episodes|))]
    && db'.evidence == db.evidence && db'.grace == db.grace
  }

  /** An Episode's deadline: the persisted one, or else `timeout` after the last that is known of it. */
  predicate EndsAt(r: Episode, timeout: int, end: Time) {
    r.minimumEnd == Some(end) || (r.minimumEnd.None? && LastSeenAt(r, end - timeout))
  }

  /** The last that is known of it: its last activity, or its last Event, or its start. */
  predicate LastSeenAt(r: Episode, t: Time) {
    || r.lastActivity == Some(t)
    || (r.lastActivity.None? && r.lastEvent == Some(t))
    || (r.lastActivity.None? && r.lastEvent.None? && r.start == t)
  }

  lemma DeadlineMeans(r: Episode, timeout: int)
    ensures forall end :: r.Deadline(timeout) == end <==> EndsAt(r, timeout, end)
    ensures forall t :: r.Baseline() == t <==> LastSeenAt(r, t)
  {
  }

  /** The Event may drive capture and had arrived by `at`, as far as its Receipts or its decision tell. */
  predicate DroveBy(e: Event, at: Time) {
    e.state == ActiveEvent && e.decision.Some? && e.decision.value.allowed
    && if e.ingress.Some? then e.ingress.value <= at else e.decision.value.evaluatedAt <= at
  }

  /** An Event of the Area that arrives at `at` may join the row: it is open and not past its grace; in recovery
      it must also have had a driving Event by then. */
  ghost predicate MayJoin(c: Core, area: Area, at: Time, withActivity: bool, id: EpisodeId) {
    && id < |c.db.episodes| && c.db.episodes[id].area == area
    && (c.db.episodes[id].state == Active || c.db.episodes[id].state == Quiescent)
    && (forall end | EndsAt(c.db.episodes[id], c.timeout, end) :: at <= end + c.grace)
    && (withActivity ==> exists k :: k in c.db.events && c.db.events[k].episode == Some(id) && DroveBy(c.db.events[k], at))
  }

  /** Of the rows an Event may join, the one of latest activity. */
  ghost predicate BestJoinable(c: Core, area: Area, at: Time, withActivity: bool, id: EpisodeId) {
    && MayJoin(c, area, at, withActivity, id)
    && forall j: nat, s, t | MayJoin(c, area, at, withActivity, j) && LastSeenAt(c.db.episodes[j], s) && LastSeenAt(c.db.episodes[id], t) ::
         s <= t
  }

  ghost predicate NoneJoinable(c: Core, area: Area, at: Time, withActivity: bool) {
    forall id: nat :: !MayJoin(c, area, at, withActivity, id)
  }

  lemma CandidateMeans(c: Core, area: Area, at: Time, withActivity: bool, id: EpisodeId)
    ensures MayJoin(c, area, at, withActivity, id)
            <==> id < |c.db.episodes| && Candidate(c.db, id, area, at, c.timeout, c.grace, withActivity)
  {
    if id < |c.db.episodes| {
      DeadlineMeans(c.db.episodes[id], c.timeout);
      assert EndsAt(c.db.episodes[id], c.timeout, c.db.episodes[id].Deadline(c.timeout));
      ActivityMeans(c.db.events, id, at);
    }
  }

  lemma ActivityMeans(events: map<Key, Event>, id: EpisodeId, at: Time)
    ensures HasActivityBy(events, id, at) <==> exists k :: k in events && events[k].episode == Some(id) && DroveBy(events[k], at)
  {
    if exists k :: k in events && events[k].episode == Some(id) && DroveBy(events[k], at) {
      var k :| k in events && events[k].episode == Some(id) && DroveBy(events[k], at);
      assert events[k].state.ActiveEvent? && events[k].IngressOrTimestamp() <= at;
    }
  }

  /** The query finds such a row of latest activity, if any. */
  lemma QueryMeans(c: Core, area: Area, at: Time, withActivity: bool)
    ensures var found := FindOpenEpisode(c.db, area, at, c.timeout, c.grace, withActivity);
      if found.Some? then BestJoinable(c, area, at, withActivity, found.value) else NoneJoinable(c, area, at, withActivity)
  {
    forall id: nat ensures MayJoin(c, area, at, withActivity, id)
            <==> id < |c.db.episodes| && Candidate(c.db, id, area, at, c.timeout, c.grace, withActivity) {
      CandidateMeans(c, area, at, withActivity, id);
    }
    forall id: nat, t | id < |c.db.episodes| ensures c.db.episodes[id].Baseline() == t <==> LastSeenAt(c.db.episodes[id], t) {
      DeadlineMeans(c.db.episodes[id], c.timeout);
    }
  }

  /** The engine remembers the latest deadline it knows for the Episode, has published it, and nothing else of
      its memory changes. */
  ghost predicate Remembers(c: Core, c': Core, id: EpisodeId, persisted: Option<Time>, end: Time) {
    && c' == c.(db := c'.db, deadlines := c'.deadlines, leases := c'.leases)
    && id in c'.deadlines && c'.deadlines == c.deadlines[id := c'.deadlines[id]]
    && c'.leases == c.leases[id := Lease(c.revision, c'.deadlines[id] + c.grace)]
    && end <= c'.deadlines[id]
    && (persisted.Some? ==> persisted.value <= c'.deadlines[id])
    && (id in c.deadlines ==> c.deadlines[id] <= c'.deadlines[id])
    && (c'.deadlines[id] == end || Some(c'.deadlines[id]) == persisted || (id in c.deadlines && c'.deadlines[id] == c.deadlines[id]))
  }

  /** The Event has ended in the Episode `id`, joined or new, and the engine knows. */
  ghost predicate DrivenInto(c: Core, k: Key, e: Event, at: Time, end: Time, id: EpisodeId, c': Core) {
    if id < |c.db.episodes| then
      JoinedInto(c.db, k, e, at, end, id, c'.db) && Remembers(c, c', id, c.db.episodes[id].minimumEnd, end)
    else
      id == |c.db.episodes| && OpenedFor(c.db, k, e, at, end, c'.db) && Remembers(c, c', id, None, end)
  }

  // ----- a driving Event ---------------------------------------------------------------------------------

  lemma JoinedRowOutcome(r: Episode, timestamp: Time, at: Time, window: int)
    requires r.Open()
    ensures RowJoined(r, JoinRow(r, timestamp, at, window, if r.state.Quiescent? then 4 else 3), timestamp, at, at + window)
  {
  }

  lemma JoinOutcome(c: Core, k: Key, at: Time, window: int, recovery: bool)
    requires k in c.db.events && c.db.events[k].Orphan() && Target(c, k, at, recovery).Some?
    ensures DrivenInto(c, k, c.db.events[k], at, at + window, Target(c, k, at, recovery).value, Settle(c, k, at, window, recovery))
  {
    var id := Target(c, k, at, recovery).value;
    JoinPrefix(c.db, k, id, at, window, |JoinProgram(c.db, k, id, at, window)|);
    JoinedRowOutcome(c.db.episodes[id], c.db.events[k].timestamp, at, window);
    assert JoinedInto(c.db, k, c.db.events[k], at, at + window, id, Settle(c, k, at, window, recovery).db);
  }

  lemma OpenOutcome(c: Core, k: Key, at: Time, window: int, recovery: bool)
    requires k in c.db.events && c.db.events[k].Orphan() && Target(c, k, at, recovery).None?
    ensures DrivenInto(c, k, c.db.events[k], at, at + window, |c.db.episodes|, Settle(c, k, at, window, recovery))
  {
    CreatePrefix(c.db, k, at, window, |CreateProgram(c.db, k, at, window)|);
    assert OpenedFor(c.db, k, c.db.events[k], at, at + window, Settle(c, k, at, window, recovery).db);
  }

  /** Settling a driving Event: it joins the joinable Episode of latest activity, and opens one exactly when
      there is none. */
  lemma DrivingOutcome(c: Core, k: Key, at: Time, window: int)
    requires k in c.db.events && c.db.events[k].Orphan()
    ensures var e, c' := c.db.events[k], Settle(c, k, at, window, false);
      if NoneJoinable(c, e.area, at, false) then DrivenInto(c, k, e, at, at + window, |c.db.episodes|, c')
      else exists id :: BestJoinable(c, e.area, at, false, id) && DrivenInto(c, k, e, at, at + window, id, c')
  {
    QueryMeans(c, c.db.events[k].area, at, false);
    if Target(c, k, at, false).Some? {
      JoinOutcome(c, k, at, window, false);
    } else {
      OpenOutcome(c, k, at, window, false);
    }
  }

  // ----- recovery -----------------------------------------------------------------------------------------

  /** The Event's row once its one identifiable Receipt, if it is still to be linked, is. */
  function WithReceipt(e: Event): Event {
    if e.ingress.None? && e.episode.None? && e.unlinked.Some? then e.(ingress := e.unlinked, unlinked := None) else e
  }

  /** When the Event first arrived: its earliest Receipt, or else when its decision was taken. */
  function FirstSeen(e: Event): Time
    requires e.decision.Some?
  {
    if e.ingress.Some? then e.ingress.value
    else if e.episode.None? && e.unlinked.Some? then e.unlinked.value
    else e.decision.value.evaluatedAt
  }

  /** The activity window frozen into the decision; decisions of the first versions have none. */
  predicate Frozen(e: Event, w: int) {
    e.decision.Some? && e.decision.value.window == Some(w) && 1 <= w
  }

  predicate NothingFrozen(e: Event) {
    e.decision.Some? && (e.decision.value.window.None? || e.decision.value.window.value < 1)
  }

  /** An open Episode of the Event's Area and timestamp that has no Event. */
  ghost predicate EmptyFor(db: Db, e: Event, id: EpisodeId) {
    && id < |db.episodes| && (db.episodes[id].state == Active || db.episodes[id].state == Quiescent)
    && db.episodes[id].area == e.area && db.episodes[id].start == e.timestamp
    && db.episodes[id].eventCount == 0 && forall k | k in db.events :: db.events[k].episode != Some(id)
  }

  /** The empty Episode an Event may have opened before a crash, if it is the only one and still in reach. */
  ghost predicate OwnShell(c: Core, e: Event, at: Time, id: EpisodeId) {
    && EmptyFor(c.db, e, id) && (forall j | EmptyFor(c.db, e, j) :: j == id)
    && forall end | EndsAt(c.db.episodes[id], c.timeout, end) :: at <= end + c.grace
  }

  lemma ShellMeans(c: Core, k: Key, at: Time)
    requires k in c.db.events && c.db.events[k].episode.None? && c.db.events[k].state.ActiveEvent?
    ensures forall id: nat :: FindShell(c.db, k, at, c.timeout, c.grace) == Some(id) <==> OwnShell(c, c.db.events[k], at, id)
  {
    var e := c.db.events[k];
    forall id: nat ensures MatchingShell(c.db, id, e) <==> EmptyFor(c.db, e, id) {
    }
    forall id: nat ensures SoleShell(c.db, id, e, at, c.timeout, c.grace) <==> OwnShell(c, e, at, id) {
      if id < |c.db.episodes| {
        DeadlineMeans(c.db.episodes[id], c.timeout);
        assert EndsAt(c.db.episodes[id], c.timeout, c.db.episodes[id].Deadline(c.timeout));
      }
    }
  }

  /** Linking the Receipt of an unlinked Event changes no query. */
  lemma QueriesAfterReceipt(c: Core, k: Key, area: Area, at: Time, withActivity: bool)
    requires k in c.db.events && c.db.events[k].episode.None?
    ensures var mid := AfterBackfill(c, k);
      && (forall id: nat :: MayJoin(mid, area, at, withActivity, id) <==> MayJoin(c, area, at, withActivity, id))
      && (forall id: nat :: EmptyFor(mid.db, mid.db.events[k], id) <==> EmptyFor(c.db, c.db.events[k], id))
  {
    var mid := AfterBackfill(c, k);
    assert forall j | j in c.db.events :: mid.db.events[j].episode == c.db.events[j].episode;
    assert forall j | j in c.db.events && j != k :: mid.db.events[j] == c.db.events[j];
  }

  /** The same, begun from the database before the Receipt was linked. */
  lemma DrivenAfterReceipt(c: Core, k: Key, at: Time, end: Time, id: EpisodeId, c': Core)
    requires k in c.db.events && var mid := AfterBackfill(c, k); DrivenInto(mid, k, mid.db.events[k], at, end, id, c')
    ensures DrivenInto(c, k, WithReceipt(c.db.events[k]), at, end, id, c')
  {
    var mid, e := AfterBackfill(c, k), WithReceipt(c.db.events[k]);
    assert mid.db.events == c.db.events[k := e];
    assert mid.db.events[k := e.(episode := Some(id))] == c.db.events[k := e.(episode := Some(id))];
  }

  /** Recovering a driving Event from its first arrival and its window `w`. */
  lemma RecoveredInto(c: Core, k: Key, fallback: int, w: int)
    requires k in c.db.events && c.db.events[k].Orphan() && (Frozen(c.db.events[k], w) || (NothingFrozen(c.db.events[k]) && w == fallback))
    ensures var mid, at := AfterBackfill(c, k), FirstSeen(c.db.events[k]);
      Recover(c, k, fallback) == Settle(mid, k, at, w, true) && mid.db.events[k] == WithReceipt(c.db.events[k])
  {
  }

  lemma RecoveryTargetOutcome(c: Core, k: Key, at: Time)
    requires k in c.db.events && c.db.events[k].Orphan()
    ensures var mid, e := AfterBackfill(c, k), c.db.events[k];
      var target := Target(mid, k, at, true);
      && (forall id: nat | OwnShell(c, e, at, id) :: target == Some(id))
      && ((forall id: nat :: !OwnShell(c, e, at, id)) ==>
            if NoneJoinable(c, e.area, at, true) then target.None? else target.Some? && BestJoinable(c, e.area, at, true, target.value))
  {
    var mid, e := AfterBackfill(c, k), c.db.events[k];
    QueriesAfterReceipt(c, k, e.area, at, true);
    ShellMeans(mid, k, at);
    QueryMeans(mid, e.area, at, true);
    assert forall id: nat :: OwnShell(mid, mid.db.events[k], at, id) <==> OwnShell(c, e, at, id);
  }

  lemma RecoveredAtTarget(c: Core, k: Key, fallback: int, w: int)
    requires k in c.db.events && c.db.events[k].Orphan()
    requires Frozen(c.db.events[k], w) || (NothingFrozen(c.db.events[k]) && w == fallback)
    ensures var e, at := c.db.events[k], FirstSeen(c.db.events[k]);
      var target := Target(AfterBackfill(c, k), k, at, true);
      DrivenInto(c, k, WithReceipt(e), at, at + w, if target.Some? then target.value else |c.db.episodes|, Recover(c, k, fallback))
  {
    var mid, at := AfterBackfill(c, k), FirstSeen(c.db.events[k]);
    var target := Target(mid, k, at, true);
    RecoveredInto(c, k, fallback, w);
    if target.Some? {
      JoinOutcome(mid, k, at, w, true);
    } else {
      OpenOutcome(mid, k, at, w, true);
    }
    DrivenAfterReceipt(c, k, at, at + w, if target.Some? then target.value else |c.db.episodes|, Recover(c, k, fallback));
  }

  /** Recovering a driving Event: it goes by its first arrival and by the window frozen into its decision, or
      `fallback` where none is.  It ends in its own empty Episode if there is one, else in the joinable Episode of
      latest activity by then, else in a new one. */
  lemma RecoveredOutcome(c: Core, k: Key, fallback: int, w: int)
    requires k in c.db.events && c.db.events[k].Orphan()
    requires Frozen(c.db.events[k], w) || (NothingFrozen(c.db.events[k]) && w == fallback)
    ensures var e, at, c' := c.db.events[k], FirstSeen(c.db.events[k]), Recover(c, k, fallback);
      && (forall id: nat | OwnShell(c, e, at, id) :: DrivenInto(c, k, WithReceipt(e), at, at + w, id, c'))
      && ((forall id: nat :: !OwnShell(c, e, at, id)) ==>
            if NoneJoinable(c, e.area, at, true) then DrivenInto(c, k, WithReceipt(e), at, at + w, |c.db.episodes|, c')
            else exists id :: BestJoinable(c, e.area, at, true, id) && DrivenInto(c, k, WithReceipt(e), at, at + w, id, c'))
  {
    RecoveryTargetOutcome(c, k, FirstSeen(c.db.events[k]));
    RecoveredAtTarget(c, k, fallback, w);
  }

  /** What the Device's window is by now makes no difference to an Event whose window is frozen. */
  lemma PolicyIsFrozen(c: Core, k: Key, w: int, now: int, later: int)
    requires k in c.db.events && (Frozen(c.db.events[k], w) || !c.db.events[k].Drives())
    ensures Recover(c, k, now) == Recover(c, k, later)
  {
    if c.db.events[k].Pending() {
      assert AfterBackfill(c, k).db.events[k].Drives() == c.db.events[k].Drives();
    }
  }

  /** Nothing is to be recovered for an Event that is settled: one that is inactive, has an Episode or no Area, was
      excluded by its capture profile, or already has an attachment recorded. */
  predicate NothingToRecover(e: Event) {
    || e.state == InactiveEvent || e.episode.Some? || e.area == "" || e.decision.None?
    || (!e.decision.value.allowed && (!e.decision.value.classFiltered || e.decision.value.attachment.Some?))
  }

  lemma SettledOutcome(c: Core, k: Key, fallback: int)
    requires k in c.db.events && NothingToRecover(c.db.events[k])
    ensures Recover(c, k, fallback) == c
  {
  }

  /** A redelivery links its Receipt and, exactly when it agrees with its Event and that is not settled, recovers it. */
  lemma RedeliverySettles(c: Core, d: Delivery, fallback: int)
    requires d.key in c.db.events
    ensures var e := c.db.events[d.key];
      Redeliver(c, d, fallback)
      == if d.device != e.device || d.eventType != e.eventType || d.state != e.state || NothingToRecover(e)
         then AfterReceipt(c, d) else Recover(AfterReceipt(c, d), d.key, fallback)
  {
    assert NothingToRecover(AfterReceipt(c, d).db.events[d.key]) == NothingToRecover(c.db.events[d.key]);
    if NothingToRecover(c.db.events[d.key]) {
      SettledOutcome(AfterReceipt(c, d), d.key, fallback);
    }
  }

  // ----- Events that do not drive ---------------------------------------------------------------------------

  /** The Event has been attributed to the row, which counts it and keeps its life. */
  predicate RowAttributed(r: Episode, r': Episode) {
    r' == r.(eventCount := r.eventCount + 1)
  }

  ghost predicate AttachedTo(c: Core, k: Key, e: Event, id: EpisodeId, c': Core)
    requires e.decision.Some?
  {
    && c' == c.(db := c'.db)
    && OnlyRow(c.db, k, e.(episode := Some(id), decision := Some(e.decision.value.(attachment := Some(Attached)))), id, c'.db)
    && RowAttributed(c.db.episodes[id], c'.db.episodes[id])
  }

  ghost predicate LeftUnassigned(c: Core, k: Key, e: Event, c': Core)
    requires e.decision.Some?
  {
    c' == c.(db := c.db.(events := c.db.events[k := e.(decision := Some(e.decision.value.(attachment := Some(NoOpenEpisode))))]))
  }

  /** A class-filtered Event joins the joinable Episode of latest activity without touching its life, or is
      recorded as having found none. */
  lemma FilteredOutcome(c: Core, k: Key, at: Time, window: int, recovery: bool)
    requires k in c.db.events && c.db.events[k].state.ActiveEvent? && c.db.events[k].area != NO_AREA
    requires c.db.events[k].episode.None? && c.db.events[k].decision.Some?
    requires !c.db.events[k].decision.value.allowed && c.db.events[k].decision.value.classFiltered
    ensures var e, c' := c.db.events[k], Settle(c, k, at, window, recovery);
      if NoneJoinable(c, e.area, at, recovery) then LeftUnassigned(c, k, e, c')
      else exists id :: BestJoinable(c, e.area, at, recovery, id) && AttachedTo(c, k, e, id, c')
  {
    var e := c.db.events[k];
    var target := FindOpenEpisode(c.db, e.area, at, c.timeout, c.grace, recovery);
    AttachPrefix(c, k, at, recovery, |AttachProgram(c, k, at, recovery)|);
    QueryMeans(c, e.area, at, recovery);
    if target.Some? {
      assert AttachedTo(c, k, e, target.value, Settle(c, k, at, window, recovery));
    }
  }

  /** The Events are transitions of one Device, Area and type, and `j` is not the later one. */
  predicate SameStream(events: map<Key, Event>, j: Key, k: Key)
    requires k in events
  {
    && j in events && j != k && events[j].device == events[k].device && events[j].area == events[k].area
    && events[j].eventType == events[k].eventType && events[j].timestamp <= events[k].timestamp
  }

  /** The transition before `k`: the latest of its stream, by key among equals. */
  ghost predicate TransitionBefore(events: map<Key, Event>, j: Key, k: Key)
    requires k in events
  {
    SameStream(events, j, k)
    && forall i: Key | SameStream(events, i, k) ::
         events[i].timestamp < events[j].timestamp || (events[i].timestamp == events[j].timestamp && i <= j)
  }

  /** The Episode of the active Event the inactive one ends. */
  ghost predicate Ends(db: Db, k: Key, id: EpisodeId)
    requires k in db.events
  {
    && id < |db.episodes| && (db.episodes[id].state == Active || db.episodes[id].state == Quiescent)
    && exists j :: TransitionBefore(db.events, j, k) && db.events[j].state == ActiveEvent && db.events[j].episode == Some(id)
  }

  /** An inactive Event is attributed to the open Episode of the transition before it, whose last Event it may
      become; nothing else happens, and nothing at all without one. */
  lemma InactiveOutcome(c: Core, k: Key, at: Time, window: int, recovery: bool)
    requires k in c.db.events && c.db.events[k].state.InactiveEvent? && c.db.events[k].area != NO_AREA
    requires c.db.events[k].episode.None?
    ensures var e, c' := c.db.events[k], Settle(c, k, at, window, recovery);
      && c' == c.(db := c'.db)
      && ((forall id: nat :: !Ends(c.db, k, id)) ==> c' == c)
      && forall id: nat | Ends(c.db, k, id) ::
           && OnlyRow(c.db, k, e.(episode := Some(id)), id, c'.db)
           && RowAttributed(c.db.episodes[id].(lastEvent := c'.db.episodes[id].lastEvent), c'.db.episodes[id])
           && LaterOf(c.db.episodes[id].lastEvent, e.timestamp, c'.db.episodes[id].lastEvent)
  {
    InactiveTargetOutcome(c.db, k);
    InactivePrefix(c.db, k, |InactiveProgram(c.db, k)|);
    assert RunTo(c.db, InactiveProgram(c.db, k), 0) == c.db;
  }

  lemma InactiveTargetOutcome(db: Db, k: Key)
    requires k in db.events
    ensures forall id: nat :: InactiveTarget(db, k) == Some(id) <==> Ends(db, k, id)
  {
    forall j: Key ensures LastPreceding(db.events, j, k) <==> TransitionBefore(db.events, j, k) {
      if LastPreceding(db.events, j, k) {
        forall i: Key | SameStream(db.events, i, k) ensures LaterOrSame(db.events, j, i) {
          assert Precedes(db.events, i, k);
        }
      }
      if TransitionBefore(db.events, j, k) {
        forall i | i in db.events && Precedes(db.events, i, k) ensures LaterOrSame(db.events, j, i) {
          assert SameStream(db.events, i, k);
        }
      }
    }
    forall i: Key, j: Key | TransitionBefore(db.events, i, k) && TransitionBefore(db.events, j, k) ensures i == j {
      assert SameStream(db.events, i, k) && SameStream(db.events, j, k);
    }
    if exists j: Key :: TransitionBefore(db.events, j, k) {
      var j: Key :| TransitionBefore(db.events, j, k);
      assert Precedes(db.events, j, k) && FindPreceding(db.events, k) == Some(j);
    }
  }

  /** An Event without an Area, or excluded by its capture profile, changes nothing. */
  lemma ExcludedOutcome(c: Core, k: Key, at: Time, window: int, recovery: bool)
    requires k in c.db.events
    requires c.db.events[k].area == NO_AREA
             || (c.db.events[k].state.ActiveEvent?
                 && (c.db.events[k].decision.None?
                     || !(c.db.events[k].decision.value.allowed || c.db.events[k].decision.value.classFiltered)))
    ensures Settle(c, k, at, window, recovery) == c
  {
    assert RunTo(c.db, [], 0) == c.db;
  }

  /** Recovering a class-filtered Event: the same, by its first arrival and by what had arrived by then. */
  lemma RecoveredFilteredOutcome(c: Core, k: Key, fallback: int)
    requires k in c.db.events && c.db.events[k].FilteredPending() && c.db.events[k].Pending()
    ensures var e, at, c' := c.db.events[k], FirstSeen(c.db.events[k]), Recover(c, k, fallback);
      if NoneJoinable(c, e.area, at, true) then LeftUnassigned(c, k, WithReceipt(e), c')
      else exists id :: BestJoinable(c, e.area, at, true, id) && AttachedTo(c, k, WithReceipt(e), id, c')
  {
    var mid, e, at := AfterBackfill(c, k), c.db.events[k], FirstSeen(c.db.events[k]);
    var c' := Recover(c, k, fallback);
    QueriesAfterReceipt(c, k, e.area, at, true);
    FilteredOutcome(mid, k, at, c.timeout, true);
    FilteredIsSettled(c, k, fallback);
    if NoneJoinable(mid, e.area, at, true) {
      UnassignedAfterReceipt(c, k, c');
    } else {
      var id :| BestJoinable(mid, e.area, at, true, id) && AttachedTo(mid, k, WithReceipt(e), id, c');
      AttachedAfterReceipt(c, k, id, c');
      assert BestJoinable(c, e.area, at, true, id);
    }
  }

  lemma UnassignedAfterReceipt(c: Core, k: Key, c': Core)
    requires k in c.db.events && c.db.events[k].decision.Some? && c.db.events[k].episode.None?
    requires LeftUnassigned(AfterBackfill(c, k), k, WithReceipt(c.db.events[k]), c')
    ensures LeftUnassigned(c, k, WithReceipt(c.db.events[k]), c')
  {
    assert AfterBackfill(c, k).db.events[k := c'.db.events[k]] == c.db.events[k := c'.db.events[k]];
  }

  lemma AttachedAfterReceipt(c: Core, k: Key, id: EpisodeId, c': Core)
    requires k in c.db.events && c.db.events[k].decision.Some? && c.db.events[k].episode.None?
    requires AttachedTo(AfterBackfill(c, k), k, WithReceipt(c.db.events[k]), id, c')
    ensures AttachedTo(c, k, WithReceipt(c.db.events[k]), id, c')
  {
    assert AfterBackfill(c, k).db.events[k := c'.db.events[k]] == c.db.events[k := c'.db.events[k]];
  }

  lemma FilteredIsSettled(c: Core, k: Key, fallback: int)
    requires k in c.db.events && c.db.events[k].FilteredPending() && c.db.events[k].Pending()
    ensures var mid := AfterBackfill(c, k);
      mid.db.events == c.db.events[k := WithReceipt(c.db.events[k])]
      && Recover(c, k, fallback) == Settle(mid, k, FirstSeen(c.db.events[k]), c.timeout, true)
  {
  }

  // ----- an Event that already has an Episode ---------------------------------------------------------------

  /** Driving an Event that a redelivery has linked meanwhile: its own Episode is joined once more but does not
      count it twice, any other refuses it, and a new one stays empty. */
  lemma HeldOutcome(c: Core, k: Key, at: Time, window: int, own: EpisodeId)
    requires k in c.db.events && c.db.events[k].Drives() && c.db.events[k].area != NO_AREA
    requires c.db.events[k].episode == Some(own)
    ensures var e, c' := c.db.events[k], Settle(c, k, at, window, false);
      if NoneJoinable(c, e.area, at, false) then
        c' == c.(db := c.db.(episodes := c.db.episodes
                + [Episode(e.area, e.timestamp, Some(e.timestamp), Some(at), Some(at + window), None, Active, 0, 0)]))
      else
        exists id: nat :: BestJoinable(c, e.area, at, false, id)
          && if id != own then c' == c
             else && OnlyRow(c.db, k, e, id, c'.db) && Remembers(c, c', id, c.db.episodes[id].minimumEnd, at + window)
                  && RowJoined(c.db.episodes[id].(eventCount := c.db.episodes[id].eventCount - 1), c'.db.episodes[id],
                               e.timestamp, at, at + window)
  {
    var e, target := c.db.events[k], Target(c, k, at, false);
    var p := DriveProgram(c, k, at, window, false);
    HeldDrivePrefix(c, k, at, window, false, |p|);
    QueryMeans(c, e.area, at, false);
    if target.Some? {
      if target.value == own {
        RejoinOutcome(c, k, at, window);
      } else {
        assert p == [] && Settle(c, k, at, window, false) == c;
      }
    }
  }

  lemma RejoinOutcome(c: Core, k: Key, at: Time, window: int)
    requires k in c.db.events && c.db.events[k].Drives() && c.db.events[k].area != NO_AREA
    requires c.db.events[k].episode.Some? && Target(c, k, at, false) == c.db.events[k].episode
    ensures var id, e, c' := c.db.events[k].episode.value, c.db.events[k], Settle(c, k, at, window, false);
      && OnlyRow(c.db, k, e, id, c'.db) && Remembers(c, c', id, c.db.episodes[id].minimumEnd, at + window)
      && RowJoined(c.db.episodes[id].(eventCount := c.db.episodes[id].eventCount - 1), c'.db.episodes[id],
                   e.timestamp, at, at + window)
  {
    var id := c.db.events[k].episode.value;
    JoinedRowOutcome(c.db.episodes[id], c.db.events[k].timestamp, at, window);
    RejoinPrefix(c.db, k, id, at, window, |JoinProgram(c.db, k, id, at, window)|);
    assert c.db.events[k := c.db.events[k]] == c.db.events;
  }

  // ----- deliveries ------------------------------------------------------------------------------------------

  /** A first delivery leaves a row with what was observed and decided, and with its Receipt. */
  lemma FirstDeliveryOutcome(c: Core, d: Delivery)
    requires d.key !in c.db.events
    ensures Canonicalized(c, d) == c.(db := c.db.(events :=
              c.db.events[d.key := Event(d.device, d.area, d.timestamp, d.eventType, d.state, d.decision, d.receipt, None, None)]))
  {
  }

  /** The Receipts an Event is known to have had before a redelivery. */
  function KnownReceipts(e: Event): set<Time> {
    (if e.ingress.Some? then {e.ingress.value} else {})
    + (if e.ingress.None? && e.state.ActiveEvent? && e.episode.None? && e.unlinked.Some? then {e.unlinked.value} else {})
  }

  /** A redelivery with a Receipt moves the ingress of its Event to the earliest one known; a conflicting one, or
      one without a Receipt, changes nothing.  Observation and decision stay those of the first delivery. */
  lemma RedeliveryOutcome(c: Core, d: Delivery)
    requires d.key in c.db.events
    ensures var e, c' := c.db.events[d.key], AfterReceipt(c, d);
      if d.receipt.None? || d.device != e.device || d.eventType != e.eventType || d.state != e.state then c' == c
      else
        && d.key in c'.db.events && c' == c.(db := c.db.(events := c.db.events[d.key := c'.db.events[d.key]]))
        && var e' := c'.db.events[d.key];
           && e' == e.(ingress := e'.ingress, unlinked := None) && e'.ingress.Some?
           && e'.ingress.value in KnownReceipts(e) + {d.receipt.value}
           && forall t | t in KnownReceipts(e) + {d.receipt.value} :: e'.ingress.value <= t
  {
    RunShort(c.db, ReceiptProgram(c.db, d));
  }
}
