/** What each operation of the Episode engine persists and remembers.

    `Core` is the database together with the engine's own fields.  Every operation is given by
    the program of transactions it commits and by its effect on the in-memory fields. */
module Lifecycle {
  import opened Domain
  import opened Store

  /** The last capture lease published for an Episode. */
  datatype Lease = Lease(revision: nat, until: Time)

  datatype Core = Core(
    db: Db,
    timeout: int,
    grace: int,
    revision: nat,
    deadlines: map<EpisodeId, Time>,
    leases: map<EpisodeId, Lease>,
    defer: bool)

  /** One delivery of an observation.  `at` is when it arrived: the Receipt's received_at if there
      is one.  `window` is the activity window in force and `decision` the participation decision
      the capture profile gives now; a later delivery of the same key ignores the decision. */
  datatype Delivery = Delivery(
    key: Key,
    device: string,
    area: Area,
    timestamp: Time,
    eventType: string,
    state: EventState,
    decision: Option<Decision>,
    receipt: Option<Time>,
    ownPath: bool,
    at: Time,
    window: int)
  {
    ghost predicate Valid() {
      && (receipt.Some? ==> at == receipt.value)
      && 1 <= window
      && (state.ActiveEvent? <==> decision.Some?)
      && (decision.Some? ==>
            && decision.value.window == Some(window)
            && decision.value.attachment.None?
            && !(decision.value.allowed && decision.value.classFiltered))
    }

    function NewEvent(): Event {
      Event(device, area, timestamp, eventType, state, decision, None,
            if ownPath then receipt else None, None)
    }

    predicate Conflicts(e: Event) {
      e.device != device || e.eventType != eventType || e.state != state
    }
  }

  // ----- correlation ---------------------------------------------------------------------

  function NewEpisode(e: Event, at: Time, window: int): Episode {
    Episode(e.area, e.timestamp, Some(e.timestamp), Some(at), Some(at + window), None, Active, 0, 0)
  }

  /** The Episode a driving Event joins, or None when it opens a new one. */
  ghost function Target(c: Core, k: Key, at: Time, recovery: bool): (target: Option<EpisodeId>)
    requires k in c.db.events
    ensures target.Some? ==> target.value < |c.db.episodes| && c.db.episodes[target.value].Open()
                             && c.db.episodes[target.value].area == c.db.events[k].area
  {
    var shell := if recovery then FindShell(c.db, k, at, c.timeout, c.grace) else None;
    if shell.Some? then shell
    else FindOpenEpisode(c.db, c.db.events[k].area, at, c.timeout, c.grace, recovery)
  }

  /** The Event already belongs to an Episode other than `target`, so linking it there raises. */
  predicate HeldElsewhere(e: Event, target: Option<EpisodeId>) {
    e.episode.Some? && e.episode != target
  }

  function JoinProgram(db: Db, k: Key, id: EpisodeId, at: Time, window: int): seq<Commit>
    requires k in db.events && id < |db.episodes|
  {
    [LinkEvent(k, id), UpdateTimes(id, db.events[k].timestamp, Some(at)), ExtendMinimumEnd(id, at + window)]
    + if db.episodes[id].state.Quiescent? then [SetState(id, Active)] else []
  }

  function CreateProgram(db: Db, k: Key, at: Time, window: int): seq<Commit>
    requires k in db.events
  {
    var id := |db.episodes|;
    var e := db.events[k];
    [CreateEpisode(NewEpisode(e, at, window)), LinkEvent(k, id),
     UpdateTimes(id, e.timestamp, Some(at)), ExtendMinimumEnd(id, at + window)]
  }

  /** A link that raises ends the program: nothing is joined, and a new Episode stays empty. */
  ghost function DriveProgram(c: Core, k: Key, at: Time, window: int, recovery: bool): seq<Commit>
    requires k in c.db.events
  {
    var target := Target(c, k, at, recovery);
    if HeldElsewhere(c.db.events[k], target) then
      if target.Some? then [] else [CreateEpisode(NewEpisode(c.db.events[k], at, window))]
    else if target.Some? then JoinProgram(c.db, k, target.value, at, window)
    else CreateProgram(c.db, k, at, window)
  }

  /** The open Episode of the active Event that an inactive Event closes off. */
  ghost function InactiveTarget(db: Db, k: Key): (target: Option<EpisodeId>)
    requires k in db.events
    ensures target.Some? ==> target.value < |db.episodes| && db.episodes[target.value].Open()
                             && exists j :: Precedes(db.events, j, k) && db.events[j].episode == target
  {
    var preceding := FindPreceding(db.events, k);
    if preceding.None? then None
    else
      var p := db.events[preceding.value];
      if p.state.ActiveEvent? && p.episode.Some? && p.episode.value < |db.episodes|
         && db.episodes[p.episode.value].Open()
      then p.episode else None
  }

  ghost function InactiveProgram(db: Db, k: Key): seq<Commit>
    requires k in db.events
  {
    var target := InactiveTarget(db, k);
    if target.None? then []
    else [UpdateTimes(target.value, db.events[k].timestamp, None), LinkEvent(k, target.value)]
  }

  function AttachProgram(c: Core, k: Key, at: Time, recovery: bool): seq<Commit>
    requires k in c.db.events
  {
    var target := FindOpenEpisode(c.db, c.db.events[k].area, at, c.timeout, c.grace, recovery);
    if target.None? then [RecordAttachment(k, NoOpenEpisode)]
    else if HeldElsewhere(c.db.events[k], target) then []
    else [LinkEvent(k, target.value), RecordAttachment(k, Attached)]
  }

  /** Everything correlation commits for a canonical Event. */
  ghost function SettleProgram(c: Core, k: Key, at: Time, window: int, recovery: bool): seq<Commit>
    requires k in c.db.events
  {
    var e := c.db.events[k];
    if e.area == NO_AREA then []
    else if e.state.InactiveEvent? then InactiveProgram(c.db, k)
    else if e.Drives() then DriveProgram(c, k, at, window, recovery)
    else if e.decision.Some? && e.decision.value.classFiltered then AttachProgram(c, k, at, recovery)
    else []
  }

  function Remember(c: Core, id: EpisodeId, deadline: Time): Core {
    c.(deadlines := c.deadlines[id := if id in c.deadlines then Max(c.deadlines[id], deadline) else deadline])
  }

  function PublishLease(c: Core, id: EpisodeId): Core
    requires id in c.deadlines
  {
    c.(leases := c.leases[id := Lease(c.revision, c.deadlines[id] + c.grace)])
  }

  /** The in-memory effect of correlating a driving Event. */
  function RememberAndPublish(c: Core, target: Option<EpisodeId>, end: Time): Core
    requires target.Some? ==> target.value < |c.db.episodes|
  {
    if target.Some? then
      var persisted := c.db.episodes[target.value].minimumEnd;
      PublishLease(Remember(c, target.value, if persisted.Some? then Max(persisted.value, end) else end), target.value)
    else PublishLease(Remember(c, |c.db.episodes|, end), |c.db.episodes|)
  }

  /** The core once correlation has committed: a driving Event is also remembered, unless linking it raised. */
  function WithDb(c: Core, k: Key, target: Option<EpisodeId>, end: Time, db: Db): Core
    requires k in c.db.events && (target.Some? ==> target.value < |c.db.episodes|)
  {
    if c.db.events[k].Drives() && c.db.events[k].area != NO_AREA && !HeldElsewhere(c.db.events[k], target)
    then RememberAndPublish(c, target, end).(db := db)
    else c.(db := db)
  }

  ghost function Settle(c: Core, k: Key, at: Time, window: int, recovery: bool): Core
    requires k in c.db.events
  {
    WithDb(c, k, Target(c, k, at, recovery), at + window, Run(c.db, SettleProgram(c, k, at, window, recovery)))
  }

  // ----- recovery of an unassigned Event ---------------------------------------------------

  function RecoveryWindow(c: Core, e: Event, fallback: int): int {
    if !e.Drives() then c.timeout
    else if e.decision.Some? && e.decision.value.window.Some? && 1 <= e.decision.value.window.value
    then e.decision.value.window.value
    else fallback
  }

  function AfterBackfill(c: Core, k: Key): (c': Core)
    requires k in c.db.events
    ensures c' == c.(db := c'.db) && ReceiptsOnly(c.db, c'.db)
  {
    c.(db := Apply(c.db, Backfill(k)))
  }

  ghost function RecoverProgram(c: Core, k: Key, fallback: int): seq<Commit>
    requires k in c.db.events
  {
    if c.db.events[k].Pending() then
      var c' := AfterBackfill(c, k);
      var e := c'.db.events[k];
      [Backfill(k)] + SettleProgram(c', k, e.RecoveryIngress().value, RecoveryWindow(c', e, fallback), true)
    else []
  }

  ghost function Recover(c: Core, k: Key, fallback: int): Core
    requires k in c.db.events
  {
    if c.db.events[k].Pending() then
      var c' := AfterBackfill(c, k);
      var e := c'.db.events[k];
      Settle(c', k, e.RecoveryIngress().value, RecoveryWindow(c', e, fallback), true)
    else c
  }

  // ----- redelivery of a known key -----------------------------------------------------------

  function ReceiptProgram(db: Db, d: Delivery): seq<Commit>
    requires d.key in db.events
  {
    var e := db.events[d.key];
    if d.receipt.None? || d.Conflicts(e) then []
    else (if e.state.ActiveEvent? && e.episode.None? then [Backfill(d.key)] else [])
         + [LinkReceipt(d.key, d.receipt.value)]
  }

  lemma ReceiptProgramEffect(db: Db, d: Delivery, n: nat)
    requires d.key in db.events && n <= |ReceiptProgram(db, d)|
    ensures ReceiptsOnly(db, RunTo(db, ReceiptProgram(db, d), n))
  {
    if n != 0 {
      ReceiptProgramEffect(db, d, n - 1);
    }
  }

  ghost function AfterReceipt(c: Core, d: Delivery): (c': Core)
    requires d.key in c.db.events
    ensures c' == c.(db := c'.db) && ReceiptsOnly(c.db, c'.db)
  {
    ReceiptProgramEffect(c.db, d, |ReceiptProgram(c.db, d)|);
    c.(db := Run(c.db, ReceiptProgram(c.db, d)))
  }

  /** A redelivery resumes the correlation of its Event. */
  predicate RedeliverRecovers(db: Db, d: Delivery)
    requires d.key in db.events
  {
    var e := db.events[d.key];
    !d.Conflicts(e) && e.state.ActiveEvent? && e.episode.None?
  }

  ghost function ResumeProgram(c: Core, d: Delivery, fallback: int): seq<Commit>
    requires d.key in c.db.events
  {
    if RedeliverRecovers(c.db, d) then RecoverProgram(AfterReceipt(c, d), d.key, fallback) else []
  }

  ghost function RedeliverProgram(c: Core, d: Delivery, fallback: int): seq<Commit>
    requires d.key in c.db.events
  {
    ReceiptProgram(c.db, d) + ResumeProgram(c, d, fallback)
  }

  ghost function Redeliver(c: Core, d: Delivery, fallback: int): Core
    requires d.key in c.db.events
  {
    if RedeliverRecovers(c.db, d) then Recover(AfterReceipt(c, d), d.key, fallback) else AfterReceipt(c, d)
  }

  // ----- timer, grace and restart --------------------------------------------------------------

  function AwaitingClose(episodes: seq<Episode>): set<EpisodeId> {
    set id | 0 <= id < |episodes| && episodes[id].state.Finalizing?
  }

  function Tick(c: Core, now: Time): Core {
    var db := Apply(c.db, TimeOut(now, c.timeout, c.grace));
    c.(db := db, deadlines := if c.defer then c.deadlines else c.deadlines - AwaitingClose(db.episodes))
  }

  /** A new grace is persisted, raises the revision and republishes every remembered lease. */
  function SetGrace(c: Core, g: int): Core {
    if !ValidGrace(g) then c
    else c.(db := Apply(c.db, SaveGrace(g)), grace := g, revision := c.revision + 1,
            leases := c.leases + map id | id in c.deadlines :: Lease(c.revision + 1, c.deadlines[id] + g))
  }

  function RestoredDeadlines(db: Db, timeout: int): map<EpisodeId, Time> {
    map id | 0 <= id < |db.episodes| && db.episodes[id].Open() :: db.episodes[id].Deadline(timeout)
  }

  function Restart(c: Core): Core {
    Core(c.db, c.timeout, c.db.grace, 0, RestoredDeadlines(c.db, c.timeout), map[], true)
  }

  // ----- Evidence --------------------------------------------------------------------------------

  /** Where Evidence that names no Episode belongs. */
  function EvidenceMatch(c: Core, v: Evidence, now: Time): (target: Option<EpisodeId>)
    ensures target.Some? ==> target.value < |c.db.episodes| && c.db.episodes[target.value].Open()
  {
    if v.area == NO_AREA then None
    else
      var spanning := SpanningEpisodeUpTo(c.db, |c.db.episodes|, v.area, v.timestamp);
      if spanning.Some? then spanning else FindOpenEpisode(c.db, v.area, now, c.timeout, c.grace, false)
  }

  /** What ingesting Evidence commits, given the Episode it names; `recorder` marks the output of a
      recording, the only Evidence a finalizing Episode still accepts. */
  function EvidenceProgram(c: Core, id: EvidenceId, v: Evidence, recorder: bool, now: Time): seq<Commit> {
    var accepted := if v.episode.Some? && AcceptsEvidence(c.db, v.episode.value, recorder) then v.episode else None;
    var orphan := v.(episode := None);
    if id in c.db.evidence then
      if accepted.Some? && c.db.evidence[id].episode.None? then [LinkEvidence(id, accepted.value, recorder)] else []
    else
      var target := if v.episode.Some? then accepted else EvidenceMatch(c, orphan, now);
      [CreateEvidence(id, orphan)]
      + if target.Some? then [LinkEvidence(id, target.value, recorder && v.episode.Some?)] else []
  }

  /** A later attempt to place Evidence that no Episode holds yet. */
  function OrphanEvidenceProgram(c: Core, id: EvidenceId, now: Time): seq<Commit> {
    if id !in c.db.evidence || c.db.evidence[id].episode.Some? then []
    else
      var target := EvidenceMatch(c, c.db.evidence[id], now);
      if target.Some? then [LinkEvidence(id, target.value, false)] else []
  }

  // ----- whole calls ---------------------------------------------------------------------------------

  function Canonicalized(c: Core, d: Delivery): Core {
    var inserted := Apply(c.db, InsertEvent(d.key, d.NewEvent()));
    c.(db := if d.receipt.Some? then Apply(inserted, LinkReceipt(d.key, d.receipt.value)) else inserted)
  }

  /** One delivery, from canonicalization to correlation. */
  ghost function Ingest(c: Core, d: Delivery, fallback: int): Core {
    if d.key in c.db.events then Redeliver(c, d, fallback)
    else Settle(Canonicalized(c, d), d.key, d.at, d.window, false)
  }

  ghost function RecoverAll(c: Core, order: seq<Key>, fallback: int): Core
    decreases |order|
  {
    if order == [] then c
    else
      var k := order[|order| - 1];
      var before := RecoverAll(c, order[..|order| - 1], fallback);
      if k in before.db.events then Recover(before, k, fallback) else before
  }

  /** Every Episode awaiting its finalizer is closed if the finalizer succeeded for it. */
  function ClosedRows(episodes: seq<Episode>, succeeded: set<EpisodeId>, at: Time): seq<Episode> {
    seq(|episodes|, i requires 0 <= i < |episodes| =>
      if episodes[i].state.Finalizing? && i in succeeded
      then episodes[i].(state := Closed, endTime := Some(at)) else episodes[i])
  }

  function CloseReady(c: Core, succeeded: set<EpisodeId>, at: Time): Core {
    if c.defer then c else c.(db := c.db.(episodes := ClosedRows(c.db.episodes, succeeded, at)))
  }

  // ----- closing one by one -----------------------------------------------------------------------

  /** The listed Episodes have been forgotten and, where their finalizer succeeded, closed. */
  function ClosedSome(c: Core, deadlines: map<EpisodeId, Time>, ids: seq<EpisodeId>, succeeded: set<EpisodeId>, at: Time): Core {
    c.(deadlines := map id | id in deadlines && id !in ids :: deadlines[id],
       db := c.db.(episodes := ClosedRows(c.db.episodes, (set id | id in ids && id in succeeded), at)))
  }

  lemma ClosedSomeNext(c: Core, deadlines: map<EpisodeId, Time>, ids: seq<EpisodeId>, n: nat, succeeded: set<EpisodeId>, at: Time)
    requires n < |ids| && ids[n] < |c.db.episodes| && ids[n] !in ids[..n]
    ensures var before := ClosedSome(c, deadlines, ids[..n], succeeded, at);
      ClosedSome(c, deadlines, ids[..n + 1], succeeded, at)
      == before.(deadlines := before.deadlines - {ids[n]},
                 db := if ids[n] in succeeded then Apply(before.db, MarkClosed(ids[n], at)) else before.db)
  {
    assert ids[..n + 1] == ids[..n] + [ids[n]];
  }

  lemma ClosedSomeIsAll(c: Core, deadlines: map<EpisodeId, Time>, ids: seq<EpisodeId>, succeeded: set<EpisodeId>, at: Time)
    requires forall id :: id in ids <==> id in AwaitingClose(c.db.episodes)
    requires !c.defer && c.deadlines == deadlines - AwaitingClose(c.db.episodes)
    ensures ClosedSome(c, deadlines, ids, succeeded, at) == CloseReady(c, succeeded, at)
  {
    var some := ClosedSome(c, deadlines, ids, succeeded, at);
    assert some.db.episodes == CloseReady(c, succeeded, at).db.episodes;
    assert some.deadlines == c.deadlines;
  }
}
