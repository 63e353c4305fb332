/** The database as a value: its queries, and each committed transaction as a `Commit`.
    Everything the engine persists is a sequence of commits; a crash keeps a prefix of it. */
module Store {
  import opened Domain

  datatype Db = Db(
    episodes: seq<Episode>,
    events: map<Key, Event>,
    evidence: map<EvidenceId, Evidence>,
    grace: int)

  datatype Commit =
    | InsertEvent(key: Key, event: Event)
    | LinkReceipt(key: Key, received: Time)
    | Backfill(key: Key)
    | CreateEpisode(episode: Episode)
    | LinkEvent(key: Key, id: EpisodeId)
    | UpdateTimes(id: EpisodeId, eventTime: Time, activity: Option<Time>)
    | ExtendMinimumEnd(id: EpisodeId, end: Time)
    | SetState(id: EpisodeId, state: EpisodeState)
    | RecordAttachment(key: Key, attachment: Attachment)
    | TimeOut(now: Time, timeout: int, grace: int)
    | MarkClosed(id: EpisodeId, endedAt: Time)
    | CreateEvidence(evidenceId: EvidenceId, evidence: Evidence)
    | LinkEvidence(evidenceId: EvidenceId, id: EpisodeId, allowFinalizing: bool)
    | SaveGrace(grace: int)

  /** One row of the timer pass. */
  function TimeOutRow(e: Episode, now: Time, timeout: int, grace: int): Episode {
    if !e.Open() then e
    else if e.Deadline(timeout) + grace < now then e.(state := Finalizing, endTime := None)
    else if e.state.Active? && e.Deadline(timeout) <= now then e.(state := Quiescent)
    else e
  }

  function LinkedReceipt(e: Event, received: Time): Event {
    e.(ingress := Some(if e.ingress.Some? then Min(e.ingress.value, received) else received),
       unlinked := None)
  }

  predicate CanBackfill(e: Event) {
    e.ingress.None? && e.episode.None? && e.unlinked.Some?
  }

  function Backfilled(e: Event): Event {
    if CanBackfill(e) then LinkedReceipt(e, e.unlinked.value) else e
  }

  function WithTimes(e: Episode, eventTime: Time, activity: Option<Time>): Episode {
    e.(lastEvent := if e.lastEvent.None? || e.lastEvent.value < eventTime then Some(eventTime) else e.lastEvent,
       lastActivity := if activity.Some? then activity else e.lastActivity)
  }

  function WithMinimumEnd(e: Episode, end: Time): Episode {
    if e.minimumEnd.None? || e.minimumEnd.value < end then e.(minimumEnd := Some(end)) else e
  }

  predicate CanLinkEvent(db: Db, k: Key, id: EpisodeId) {
    k in db.events && db.events[k].episode.None? && id < |db.episodes| && db.episodes[id].Open()
  }

  predicate AcceptsEvidence(db: Db, id: EpisodeId, allowFinalizing: bool) {
    id < |db.episodes| && (db.episodes[id].Open() || (allowFinalizing && db.episodes[id].state.Finalizing?))
  }

  predicate CanLinkEvidence(db: Db, ev: EvidenceId, id: EpisodeId, allowFinalizing: bool) {
    ev in db.evidence && db.evidence[ev].episode.None? && AcceptsEvidence(db, id, allowFinalizing)
  }

  /** The database after one transaction.  A transaction whose guard fails changes nothing. */
  function Apply(db: Db, c: Commit): Db {
    match c
    case InsertEvent(k, e) =>
      if k in db.events then db else db.(events := db.events[k := e])
    case LinkReceipt(k, received) =>
      if k in db.events then db.(events := db.events[k := LinkedReceipt(db.events[k], received)]) else db
    case Backfill(k) =>
      if k in db.events then db.(events := db.events[k := Backfilled(db.events[k])]) else db
    case CreateEpisode(e) =>
      db.(episodes := db.episodes + [e])
    case LinkEvent(k, id) =>
      if CanLinkEvent(db, k, id) then
        db.(events := db.events[k := db.events[k].(episode := Some(id))],
            episodes := db.episodes[id := db.episodes[id].(eventCount := db.episodes[id].eventCount + 1)])
      else db
    case UpdateTimes(id, eventTime, activity) =>
      if id < |db.episodes| then
        db.(episodes := db.episodes[id := WithTimes(db.episodes[id], eventTime, activity)])
      else db
    case ExtendMinimumEnd(id, end) =>
      if id < |db.episodes| then
        db.(episodes := db.episodes[id := WithMinimumEnd(db.episodes[id], end)])
      else db
    case SetState(id, state) =>
      if id < |db.episodes| then
        db.(episodes := db.episodes[id := db.episodes[id].(state := state)])
      else db
    case RecordAttachment(k, attachment) =>
      if k in db.events && db.events[k].decision.Some? then
        db.(events := db.events[k := db.events[k].(decision :=
            Some(db.events[k].decision.value.(attachment := Some(attachment))))])
      else db
    case TimeOut(now, timeout, grace) =>
      db.(episodes := seq(|db.episodes|, i requires 0 <= i < |db.episodes| =>
                          TimeOutRow(db.episodes[i], now, timeout, grace)))
    case MarkClosed(id, endedAt) =>
      if id < |db.episodes| && db.episodes[id].state.Finalizing? then
        db.(episodes := db.episodes[id := db.episodes[id].(state := Closed, endTime := Some(endedAt))])
      else db
    case CreateEvidence(ev, evidence) =>
      if ev in db.evidence then db else db.(evidence := db.evidence[ev := evidence])
    case LinkEvidence(ev, id, allowFinalizing) =>
      if CanLinkEvidence(db, ev, id, allowFinalizing) then
        db.(evidence := db.evidence[ev := db.evidence[ev].(episode := Some(id))],
            episodes := db.episodes[id := db.episodes[id].(evidenceCount := db.episodes[id].evidenceCount + 1)])
      else db
    case SaveGrace(grace) =>
      db.(grace := grace)
  }

  /** The database after the first `n` transactions of a program. */
  function RunTo(db: Db, program: seq<Commit>, n: nat): Db
    requires n <= |program|
  {
    if n == 0 then db else Apply(RunTo(db, program, n - 1), program[n - 1])
  }

  function Run(db: Db, program: seq<Commit>): Db {
    RunTo(db, program, |program|)
  }

  // A prefix of a concatenation runs the first program and then the second.  The two indices of these lemmas
  // are equal, or differ by |p|; naming both keeps their use literal.

  lemma {:induction false} RunToPrefix(db: Db, p: seq<Commit>, q: seq<Commit>, n: nat, m: nat)
    requires m == n <= |p|
    ensures RunTo(db, p + q, m) == RunTo(db, p, n)
  {
    if n != 0 {
      RunToPrefix(db, p, q, n - 1, m - 1);
      assert (p + q)[m - 1] == p[n - 1];
    }
  }

  lemma {:induction false} RunToSuffix(db: Db, p: seq<Commit>, q: seq<Commit>, n: nat, m: nat)
    requires n <= |q| && m == |p| + n
    ensures RunTo(db, p + q, m) == RunTo(Run(db, p), q, n)
  {
    if n == 0 {
      RunToPrefix(db, p, q, |p|, m);
    } else {
      var last := q[n - 1];
      RunToSuffix(db, p, q, n - 1, m - 1);
      assert (p + q)[m - 1] == last;
      assert RunTo(db, p + q, m) == Apply(RunTo(db, p + q, m - 1), last);
    }
  }

  lemma RunConcat(db: Db, p: seq<Commit>, q: seq<Commit>)
    ensures Run(db, p + q) == Run(Run(db, p), q)
  {
    RunToSuffix(db, p, q, |q|, |p + q|);
  }

  /** Short programs, transaction by transaction. */
  lemma RunShort(db: Db, p: seq<Commit>)
    requires |p| <= 4
    ensures p == [] ==> Run(db, p) == db
    ensures |p| == 1 ==> Run(db, p) == Apply(db, p[0])
    ensures |p| == 2 ==> Run(db, p) == Apply(Apply(db, p[0]), p[1])
    ensures |p| == 3 ==> Run(db, p) == Apply(Apply(Apply(db, p[0]), p[1]), p[2])
    ensures |p| == 4 ==> Run(db, p) == Apply(Apply(Apply(Apply(db, p[0]), p[1]), p[2]), p[3])
  {
    assert RunTo(db, p, 0) == db;
    assert |p| >= 1 ==> RunTo(db, p, 1) == Apply(db, p[0]);
    assert |p| >= 2 ==> RunTo(db, p, 2) == Apply(RunTo(db, p, 1), p[1]);
    assert |p| >= 3 ==> RunTo(db, p, 3) == Apply(RunTo(db, p, 2), p[2]);
  }

  lemma RunUpToTwo(db: Db, p: seq<Commit>, n: nat)
    requires n <= |p| && n <= 2
    ensures n == 0 ==> RunTo(db, p, n) == db
    ensures n == 1 ==> RunTo(db, p, n) == Apply(db, p[0])
    ensures n == 2 ==> RunTo(db, p, n) == Apply(Apply(db, p[0]), p[1])
  {
    assert RunTo(db, p, 0) == db;
    assert n == 2 ==> RunTo(db, p, 1) == Apply(db, p[0]);
  }

  /** The databases differ only in which Receipts are linked. */
  ghost predicate ReceiptsOnly(db: Db, db': Db) {
    && db' == db.(events := db'.events) && db'.events.Keys == db.events.Keys
    && forall k | k in db.events ::
         db'.events[k] == db.events[k].(ingress := db'.events[k].ingress, unlinked := db'.events[k].unlinked)
  }

  // ----- queries ------------------------------------------------------------------------

  /** Some active Event linked to the Episode whose stored decision allows it arrived no later than `at`. */
  predicate HasActivityBy(events: map<Key, Event>, id: EpisodeId, at: Time) {
    exists k :: k in events && events[k].episode == Some(id) && events[k].state.ActiveEvent?
                && events[k].decision.Some? && events[k].decision.value.allowed
                && events[k].IngressOrTimestamp() <= at
  }

  /** An Episode of the Area that an Event arriving at `at` may join. */
  predicate Joinable(e: Episode, area: Area, at: Time, timeout: int, grace: int) {
    e.area == area && e.Open() && at <= e.Deadline(timeout) + grace
  }

  predicate Candidate(db: Db, id: nat, area: Area, at: Time, timeout: int, grace: int, withActivity: bool)
    requires id < |db.episodes|
  {
    Joinable(db.episodes[id], area, at, timeout, grace) && (withActivity ==> HasActivityBy(db.events, id, at))
  }

  /** The most recently active candidate among the first `n` rows. */
  function OpenEpisodeUpTo(db: Db, n: nat, area: Area, at: Time, timeout: int, grace: int, withActivity: bool)
    : (found: Option<EpisodeId>)
    requires n <= |db.episodes|
    ensures found.Some? ==> found.value < n && Candidate(db, found.value, area, at, timeout, grace, withActivity)
    ensures found.Some? ==> forall j | 0 <= j < n && Candidate(db, j, area, at, timeout, grace, withActivity)
                              :: db.episodes[j].Baseline() <= db.episodes[found.value].Baseline()
    ensures found.None? ==> forall j | 0 <= j < n :: !Candidate(db, j, area, at, timeout, grace, withActivity)
  {
    if n == 0 then None
    else
      var before := OpenEpisodeUpTo(db, n - 1, area, at, timeout, grace, withActivity);
      if Candidate(db, n - 1, area, at, timeout, grace, withActivity)
         && (before.None? || db.episodes[before.value].Baseline() < db.episodes[n - 1].Baseline())
      then Some(n - 1) else before
  }

  function FindOpenEpisode(db: Db, area: Area, at: Time, timeout: int, grace: int, withActivity: bool)
    : Option<EpisodeId>
  {
    OpenEpisodeUpTo(db, |db.episodes|, area, at, timeout, grace, withActivity)
  }

  predicate HasEvents(events: map<Key, Event>, id: EpisodeId) {
    exists k :: k in events && events[k].episode == Some(id)
  }

  /** An open Episode row without any Event. */
  predicate Shell(db: Db, id: EpisodeId) {
    id < |db.episodes| && db.episodes[id].Open() && db.episodes[id].eventCount == 0 && !HasEvents(db.events, id)
  }

  /** A shell sharing Area and source timestamp with the Event. */
  predicate MatchingShell(db: Db, id: EpisodeId, e: Event) {
    Shell(db, id) && db.episodes[id].area == e.area && db.episodes[id].start == e.timestamp
  }

  /** The only matching shell of the Event, still within its settling horizon. */
  ghost predicate SoleShell(db: Db, id: EpisodeId, e: Event, at: Time, timeout: int, grace: int) {
    && MatchingShell(db, id, e) && (forall j: nat :: MatchingShell(db, j, e) ==> j == id)
    && at <= db.episodes[id].Deadline(timeout) + grace
  }

  ghost function FindShell(db: Db, k: Key, at: Time, timeout: int, grace: int): (found: Option<EpisodeId>)
    requires k in db.events
    ensures found.Some? <==> db.events[k].episode.None? && db.events[k].state.ActiveEvent?
                             && exists id: nat :: SoleShell(db, id, db.events[k], at, timeout, grace)
    ensures found.Some? ==> SoleShell(db, found.value, db.events[k], at, timeout, grace)
  {
    var e := db.events[k];
    if e.episode.None? && e.state.ActiveEvent? && exists id: nat :: SoleShell(db, id, e, at, timeout, grace) then
      var id: nat :| SoleShell(db, id, e, at, timeout, grace);
      Some(id)
    else None
  }

  /** `j` precedes `k` in the stream of transitions of one device, Area and type. */
  predicate Precedes(events: map<Key, Event>, j: Key, k: Key)
    requires k in events
  {
    j in events && j != k
    && events[j].device == events[k].device && events[j].area == events[k].area
    && events[j].eventType == events[k].eventType && events[j].timestamp <= events[k].timestamp
  }

  predicate LaterOrSame(events: map<Key, Event>, i: Key, j: Key)
    requires i in events && j in events
  {
    events[j].timestamp < events[i].timestamp || (events[j].timestamp == events[i].timestamp && j <= i)
  }

  predicate LastPreceding(events: map<Key, Event>, i: Key, k: Key)
    requires k in events
  {
    Precedes(events, i, k) && forall j | j in events && Precedes(events, j, k) :: LaterOrSame(events, i, j)
  }

  ghost function FindPreceding(events: map<Key, Event>, k: Key): (found: Option<Key>)
    requires k in events
    ensures found.Some? <==> exists j :: Precedes(events, j, k)
    ensures found.Some? ==> LastPreceding(events, found.value, k)
  {
    if exists j :: Precedes(events, j, k) then
      assert exists i :: LastPreceding(events, i, k) by {
        var js := set j | j in events && Precedes(events, j, k);
        var j :| Precedes(events, j, k);
        assert j in js;
        LastPrecedingExists(events, k, js);
        var i :| i in js && forall j | j in js :: LaterOrSame(events, i, j);
        assert LastPreceding(events, i, k);
      }
      var i :| LastPreceding(events, i, k);
      Some(i)
    else None
  }

  lemma LastPrecedingExists(events: map<Key, Event>, k: Key, js: set<Key>)
    requires k in events
    requires js != {} && forall j | j in js :: j in events && Precedes(events, j, k)
    ensures exists i :: i in js && forall j | j in js :: LaterOrSame(events, i, j)
  {
    var j :| j in js;
    var rest := js - {j};
    if rest == {} {
      assert js == {j};
      assert LaterOrSame(events, j, j);
    } else {
      LastPrecedingExists(events, k, rest);
      var i :| i in rest && forall x | x in rest :: LaterOrSame(events, i, x);
      var best := if LaterOrSame(events, i, j) then i else j;
      assert forall x | x in js :: x == j || x in rest;
      assert forall x | x in js :: LaterOrSame(events, best, x);
    }
  }

  /** The open Episode of the Area with the latest start whose recorded lifespan contains `at`. */
  predicate Spans(e: Episode, area: Area, at: Time) {
    e.area == area && e.Open() && e.start <= at && (e.endTime.None? || at <= e.endTime.value)
  }

  function SpanningEpisodeUpTo(db: Db, n: nat, area: Area, at: Time): (found: Option<EpisodeId>)
    requires n <= |db.episodes|
    ensures found.Some? ==> found.value < n && Spans(db.episodes[found.value], area, at)
    ensures found.Some? ==> forall j | 0 <= j < n && Spans(db.episodes[j], area, at)
                              :: db.episodes[j].start <= db.episodes[found.value].start
    ensures found.None? ==> forall j | 0 <= j < n :: !Spans(db.episodes[j], area, at)
  {
    if n == 0 then None
    else
      var before := SpanningEpisodeUpTo(db, n - 1, area, at);
      if Spans(db.episodes[n - 1], area, at)
         && (before.None? || db.episodes[before.value].start < db.episodes[n - 1].start)
      then Some(n - 1) else before
  }

  /** Without the recovery bound these queries read only the Episode rows. */
  lemma QueriesReadRows(db: Db, t: Db, n: nat, area: Area, at: Time, timeout: int, grace: int)
    requires db.episodes == t.episodes && n <= |db.episodes|
    ensures OpenEpisodeUpTo(db, n, area, at, timeout, grace, false)
            == OpenEpisodeUpTo(t, n, area, at, timeout, grace, false)
    ensures SpanningEpisodeUpTo(db, n, area, at) == SpanningEpisodeUpTo(t, n, area, at)
  {
    if n != 0 {
      QueriesReadRows(db, t, n - 1, area, at, timeout, grace);
    }
  }

  // ----- association invariant -----------------------------------------------------------

  function Members(events: map<Key, Event>, id: EpisodeId): set<Key> {
    set k | k in events && events[k].episode == Some(id)
  }

  function Attachments(evidence: map<EvidenceId, Evidence>, id: EpisodeId): set<EvidenceId> {
    set v | v in evidence && evidence[v].episode == Some(id)
  }

  /** Every Event link names a row of the Event's own Area, and each row counts its Events. */
  ghost predicate EventsConsistent(db: Db) {
    && (forall k | k in db.events && db.events[k].episode.Some? ::
          db.events[k].episode.value < |db.episodes|
          && db.events[k].area == db.episodes[db.events[k].episode.value].area)
    && (forall id | 0 <= id < |db.episodes| :: db.episodes[id].eventCount == |Members(db.events, id)|)
  }

  ghost predicate EvidenceConsistent(db: Db) {
    && (forall v | v in db.evidence && db.evidence[v].episode.Some? ::
          db.evidence[v].episode.value < |db.episodes|)
    && (forall id | 0 <= id < |db.episodes| ::
          db.episodes[id].evidenceCount == |Attachments(db.evidence, id)|)
  }

  ghost predicate Consistent(db: Db) {
    EventsConsistent(db) && EvidenceConsistent(db) && ValidGrace(db.grace)
  }

  /** What a transaction must satisfy to keep the database consistent. */
  predicate WellFormed(db: Db, c: Commit) {
    match c
    case InsertEvent(_, e) => e.episode.None?
    case CreateEpisode(e) => e.eventCount == 0 && e.evidenceCount == 0
    case LinkEvent(k, id) => CanLinkEvent(db, k, id) ==> db.events[k].area == db.episodes[id].area
    case CreateEvidence(_, e) => e.episode.None?
    case SaveGrace(g) => ValidGrace(g)
    case _ => true
  }

  /** Rows keep their Area and counters, and no Event link changes. */
  ghost predicate SameCounts(db: Db, db': Db) {
    && |db'.episodes| == |db.episodes|
    && (forall id | 0 <= id < |db.episodes| ::
          db'.episodes[id].area == db.episodes[id].area
          && db'.episodes[id].eventCount == db.episodes[id].eventCount)
    && (forall k | k in db.events ::
          k in db'.events && db'.events[k].episode == db.events[k].episode && db'.events[k].area == db.events[k].area)
    && (forall k | k in db'.events && k !in db.events :: db'.events[k].episode.None?)
  }

  lemma SameCountsConsistent(db: Db, db': Db)
    requires EventsConsistent(db) && SameCounts(db, db')
    ensures EventsConsistent(db')
  {
    forall id | 0 <= id < |db.episodes| ensures Members(db'.events, id) == Members(db.events, id) {
    }
  }

  lemma OtherCommitsKeepCounts(db: Db, c: Commit)
    requires !c.CreateEpisode? && !(c.LinkEvent? && CanLinkEvent(db, c.key, c.id)) && WellFormed(db, c)
    ensures SameCounts(db, Apply(db, c))
  {
    match c
    case InsertEvent(_, _) =>
    case LinkReceipt(_, _) =>
    case Backfill(_) =>
    case RecordAttachment(_, _) =>
    case _ =>
  }

  lemma LinkEventConsistent(db: Db, k: Key, id: EpisodeId)
    requires EventsConsistent(db) && CanLinkEvent(db, k, id) && db.events[k].area == db.episodes[id].area
    ensures EventsConsistent(Apply(db, LinkEvent(k, id)))
  {
    var db' := Apply(db, LinkEvent(k, id));
    assert Members(db'.events, id) == Members(db.events, id) + {k};
    forall j | 0 <= j < |db.episodes| && j != id ensures Members(db'.events, j) == Members(db.events, j) {
    }
  }

  lemma CreateEpisodeConsistent(db: Db, e: Episode)
    requires EventsConsistent(db) && e.eventCount == 0
    ensures EventsConsistent(Apply(db, CreateEpisode(e)))
  {
    var db' := Apply(db, CreateEpisode(e));
    assert Members(db.events, |db.episodes|) == {};
    assert forall id | 0 <= id < |db.episodes| :: db'.episodes[id] == db.episodes[id];
  }

  lemma ApplyEventsConsistent(db: Db, c: Commit)
    requires EventsConsistent(db) && WellFormed(db, c)
    ensures EventsConsistent(Apply(db, c))
  {
    if c.CreateEpisode? {
      CreateEpisodeConsistent(db, c.episode);
    } else if c.LinkEvent? && CanLinkEvent(db, c.key, c.id) {
      LinkEventConsistent(db, c.key, c.id);
    } else {
      OtherCommitsKeepCounts(db, c);
      SameCountsConsistent(db, Apply(db, c));
    }
  }

  lemma LinkEvidenceConsistent(db: Db, v: EvidenceId, id: EpisodeId, allowFinalizing: bool)
    requires EvidenceConsistent(db) && CanLinkEvidence(db, v, id, allowFinalizing)
    ensures EvidenceConsistent(Apply(db, LinkEvidence(v, id, allowFinalizing)))
  {
    var db' := Apply(db, LinkEvidence(v, id, allowFinalizing));
    assert Attachments(db'.evidence, id) == Attachments(db.evidence, id) + {v};
    forall j | 0 <= j < |db.episodes| && j != id
      ensures Attachments(db'.evidence, j) == Attachments(db.evidence, j) {
    }
  }

  lemma OtherCommitsKeepEvidence(db: Db, c: Commit)
    requires !(c.LinkEvidence? && CanLinkEvidence(db, c.evidenceId, c.id, c.allowFinalizing)) && WellFormed(db, c)
    ensures var db' := Apply(db, c);
            && |db'.episodes| >= |db.episodes|
            && (forall id | 0 <= id < |db.episodes| ::
                  db'.episodes[id].evidenceCount == db.episodes[id].evidenceCount)
            && (forall id | |db.episodes| <= id < |db'.episodes| :: db'.episodes[id].evidenceCount == 0)
            && (forall v | v in db.evidence :: v in db'.evidence && db'.evidence[v].episode == db.evidence[v].episode)
            && (forall v | v in db'.evidence && v !in db.evidence :: db'.evidence[v].episode.None?)
  {
  }

  lemma ApplyEvidenceConsistent(db: Db, c: Commit)
    requires EvidenceConsistent(db) && WellFormed(db, c)
    ensures EvidenceConsistent(Apply(db, c))
  {
    if c.LinkEvidence? && CanLinkEvidence(db, c.evidenceId, c.id, c.allowFinalizing) {
      LinkEvidenceConsistent(db, c.evidenceId, c.id, c.allowFinalizing);
    } else {
      OtherCommitsKeepEvidence(db, c);
      var db' := Apply(db, c);
      forall id | 0 <= id < |db'.episodes|
        ensures Attachments(db'.evidence, id) == Attachments(db.evidence, id) {
      }
      forall id | |db.episodes| <= id < |db'.episodes| ensures Attachments(db.evidence, id) == {} {
      }
    }
  }

  lemma ApplyConsistent(db: Db, c: Commit)
    requires Consistent(db) && WellFormed(db, c)
    ensures Consistent(Apply(db, c))
  {
    ApplyEventsConsistent(db, c);
    ApplyEvidenceConsistent(db, c);
  }
}
