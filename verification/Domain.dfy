/** Entities of the Episode lifecycle, as the values the database rows hold.

    Times are integers on one clock.  Dedup keys stand for canonical Event ids
    (one row per key), and an Episode's id is the position of its row in the table,
    so a freshly generated id is simply the next position. */
module Domain {

  datatype Option<+T> = None | Some(value: T)

  type Time = int
  type Key = nat
  type EpisodeId = nat
  type EvidenceId = nat
  type Area = string

  const NO_AREA: Area := ""

  datatype EventState = ActiveEvent | InactiveEvent

  datatype Attachment = Attached | NoOpenEpisode

  /** The capture decision frozen into an active Event when it is canonicalized. */
  datatype Decision = Decision(
    allowed: bool,
    classFiltered: bool,
    evaluatedAt: Time,
    window: Option<int>,
    attachment: Option<Attachment>)

  /** A canonical Event row.  `ingress` is the earliest received_at among the Receipts linked to
      it; `unlinked` is the received_at of the single not yet linked Receipt that carries the
      Event's own payload path, if there is exactly one. */
  datatype Event = Event(
    device: string,
    area: Area,
    timestamp: Time,
    eventType: string,
    state: EventState,
    decision: Option<Decision>,
    ingress: Option<Time>,
    unlinked: Option<Time>,
    episode: Option<EpisodeId>)
  {
    /** The Event may open or extend an Episode. */
    predicate Drives() {
      state.ActiveEvent? && decision.Some? && decision.value.allowed
    }

    /** A driving Event that has an Area but no Episode yet. */
    predicate Orphan() {
      Drives() && area != NO_AREA && episode.None?
    }

    /** A class-filtered Event whose attachment was never recorded. */
    predicate FilteredPending() {
      && state.ActiveEvent? && decision.Some?
      && !decision.value.allowed && decision.value.classFiltered && decision.value.attachment.None?
    }

    /** The rows the startup recovery scan selects. */
    predicate Pending() {
      area != NO_AREA && episode.None? && (Drives() || FilteredPending())
    }

    /** Original ingress time, when it can be told without guessing. */
    function RecoveryIngress(): Option<Time> {
      if ingress.Some? then ingress
      else if decision.Some? then Some(decision.value.evaluatedAt)
      else None
    }

    /** The ingress time a query orders and bounds by; it always has a value. */
    function IngressOrTimestamp(): Time {
      if RecoveryIngress().Some? then RecoveryIngress().value else timestamp
    }
  }

  datatype EpisodeState = Active | Quiescent | Finalizing | Closed | Archived

  /** An Episode row.  Rows written by older versions may lack the optional columns. */
  datatype Episode = Episode(
    area: Area,
    start: Time,
    lastEvent: Option<Time>,
    lastActivity: Option<Time>,
    minimumEnd: Option<Time>,
    endTime: Option<Time>,
    state: EpisodeState,
    eventCount: int,
    evidenceCount: int)
  {
    predicate Open() {
      state.Active? || state.Quiescent?
    }

    predicate Finished() {
      state.Closed? || state.Archived?
    }

    function Baseline(): Time {
      if lastActivity.Some? then lastActivity.value
      else if lastEvent.Some? then lastEvent.value
      else start
    }

    function Deadline(timeout: int): Time {
      if minimumEnd.Some? then minimumEnd.value else Baseline() + timeout
    }

    /** The row records when an Event last extended it; rows of the first versions may not. */
    predicate Dated() {
      lastActivity.Some?
    }
  }

  datatype Evidence = Evidence(area: Area, timestamp: Time, episode: Option<EpisodeId>)

  const MIN_GRACE := 0
  const MAX_GRACE := 60

  /** The settling grace the system accepts, in seconds. */
  predicate ValidGrace(g: int) {
    MIN_GRACE <= g <= MAX_GRACE
  }

  function Max(a: int, b: int): int {
    if a < b then b else a
  }

  function Min(a: int, b: int): int {
    if a < b then a else b
  }

  lemma {:induction false} SubsetSize<T>(a: set<T>, b: set<T>)
    requires a <= b
    ensures |a| <= |b|
  {
    if a != {} {
      var x :| x in a;
      SubsetSize(a - {x}, b - {x});
    }
  }
}
