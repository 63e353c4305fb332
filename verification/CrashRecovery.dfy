/** Recovery after any number of crashes at any transaction, including crashes during recovery. */
module CrashRecovery {
  import opened Domain
  import opened Store
  import opened Lifecycle
  import opened Protocol
  import opened Footprints
  import opened Invariants
  import opened Overtaking

  /** The Event a shell was created for, still waiting and still in reach of it. */
  predicate ShellOf(db: Db, timeout: int, id: EpisodeId, k: Key) {
    && id < |db.episodes| && k in db.events && db.events[k].Orphan()
    && db.events[k].area == db.episodes[id].area && db.events[k].timestamp == db.episodes[id].start
    && Backfilled(db.events[k]).RecoveryIngress().value <= db.episodes[id].Deadline(timeout)
  }

  ghost predicate NoShells(db: Db) {
    forall id: nat :: !Shell(db, id)
  }

  ghost predicate OneOrphanPerArea(db: Db) {
    forall j, k | j in db.events && k in db.events && db.events[j].Orphan() && db.events[k].Orphan()
                  && db.events[j].area == db.events[k].area :: j == k
  }

  ghost predicate OneShellPerArea(db: Db) {
    forall i: nat, j: nat | Shell(db, i) && Shell(db, j) && db.episodes[i].area == db.episodes[j].area :: i == j
  }

  ghost predicate ShellsMatched(db: Db, timeout: int) {
    forall id: nat | Shell(db, id) :: exists k :: ShellOf(db, timeout, id, k)
  }

  /** What a crash may leave behind: per Area at most one unassigned driving Event and at most one
      empty Episode, which is that Event's own. */
  ghost predicate Recoverable(db: Db, timeout: int) {
    OneOrphanPerArea(db) && OneShellPerArea(db) && ShellsMatched(db, timeout)
  }

  ghost predicate NothingPending(db: Db) {
    forall k | k in db.events :: !db.events[k].Pending()
  }

  ghost predicate OrphansHeld(s: Sys) {
    forall k | k in s.core.db.events && s.core.db.events[k].Pending() :: InFlight(s, k)
  }

  /** A lock holder ready to correlate would be recovered within the window it is about to open. */
  ghost predicate FlightsTimely(s: Sys) {
    forall a | a in s.flights && s.flights[a].key in s.core.db.events ::
      var f := s.flights[a];
      var e := s.core.db.events[f.key];
      && (f.receipt.Some? ==> f.receipt.value == f.at)
      && (f.receipt.None? && e.Orphan() ==>
            !CanBackfill(e) && e.RecoveryIngress().value <= f.at + f.window)
  }

  ghost predicate CrashSafe(s: Sys) {
    && Recoverable(s.core.db, s.core.timeout)
    && (s.phase.Running? ==> NoShells(s.core.db) && OrphansHeld(s) && FlightsTimely(s) && Fresh(s))
  }

  /** Deliveries with a Receipt, and direct ones decided within their own activity window. */
  predicate Punctual(d: Delivery) {
    d.receipt.Some? || d.decision.None? || d.decision.value.evaluatedAt <= d.at + d.window
  }

  ghost predicate PunctualStep(step: Step) {
    step.action.Begin? ==> Punctual(step.action.d)
  }

  // ----- correlation programs ----------------------------------------------------------------------

  lemma NothingLinkedBeyond(db: Db)
    requires Consistent(db)
    ensures !HasEvents(db.events, |db.episodes|)
  {
  }

  lemma CreateRecoverable(db: Db, timeout: int, k: Key, at: Time, window: int, n: nat)
    requires Consistent(db) && Recoverable(db, timeout) && k in db.events && db.events[k].Orphan()
    requires forall j: nat | Shell(db, j) :: db.episodes[j].area != db.events[k].area
    requires !CanBackfill(db.events[k]) && db.events[k].RecoveryIngress().value <= at + window
    requires n <= |CreateProgram(db, k, at, window)|
    ensures Recoverable(RunTo(db, CreateProgram(db, k, at, window), n), timeout)
    ensures n >= 2 && NoShells(db) ==> NoShells(RunTo(db, CreateProgram(db, k, at, window), n))
  {
    CreatePrefix(db, k, at, window, n);
    NothingLinkedBeyond(db);
    var db' := RunTo(db, CreateProgram(db, k, at, window), n);
    var id := |db.episodes|;
    if n != 0 {
      ShellsBelow(db, db', k, id);
      assert n == 1 ==> ShellOf(db', timeout, id, k);
      assert n >= 2 ==> HasEvents(db'.events, id) by {
        if n >= 2 {
          assert db'.events[k].episode == Some(id);
        }
      }
      MatchesKept(db, db', timeout, k, id);
    }
  }

  /** Rows other than `id` keep their shells when one Event is linked to `id` at most. */
  lemma ShellsBelow(db: Db, db': Db, k: Key, id: EpisodeId)
    requires k in db.events && db.events[k].episode.None?
    requires db'.events == db.events || db'.events == Linked(db, k, id)
    requires |db.episodes| <= |db'.episodes| <= |db.episodes| + 1 && id < |db'.episodes|
    requires |db'.episodes| == |db.episodes| + 1 ==> id == |db.episodes|
    requires forall j | 0 <= j < |db.episodes| && j != id :: db'.episodes[j] == db.episodes[j]
    ensures forall j: nat | j != id :: Shell(db', j) <==> Shell(db, j)
  {
    forall j: nat | j != id
      ensures HasEvents(db'.events, j) <==> HasEvents(db.events, j)
    {
      if HasEvents(db.events, j) {
        var i :| i in db.events && db.events[i].episode == Some(j);
        assert db'.events[i].episode == Some(j);
      }
    }
  }

  /** Shells of other rows keep their orphans when no such shell shares the Area of `k`. */
  lemma MatchesKept(db: Db, db': Db, timeout: int, k: Key, id: EpisodeId)
    requires Recoverable(db, timeout) && k in db.events && db.events[k].Orphan()
    requires db'.events == db.events || db'.events == Linked(db, k, id)
    requires forall j: nat | j != id :: Shell(db', j) <==> Shell(db, j)
    requires forall j: nat | j != id && Shell(db, j) ::
               j < |db'.episodes| && db'.episodes[j] == db.episodes[j] && db.episodes[j].area != db.events[k].area
    requires Shell(db', id) ==> exists i :: ShellOf(db', timeout, id, i)
    requires Shell(db', id) ==> db'.episodes[id].area == db.events[k].area
    ensures Recoverable(db', timeout)
  {
    forall j: nat | Shell(db', j) && j != id ensures exists i :: ShellOf(db', timeout, j, i) {
      var i :| ShellOf(db, timeout, j, i);
      assert i != k;
      assert ShellOf(db', timeout, j, i);
    }
  }

  lemma JoinRecoverable(db: Db, timeout: int, k: Key, id: EpisodeId, at: Time, window: int, n: nat)
    requires Consistent(db) && Recoverable(db, timeout) && k in db.events && db.events[k].Orphan()
    requires id < |db.episodes| && db.episodes[id].Open()
    requires forall j: nat | Shell(db, j) && j != id :: db.episodes[j].area != db.events[k].area
    requires n <= |JoinProgram(db, k, id, at, window)|
    ensures Recoverable(RunTo(db, JoinProgram(db, k, id, at, window), n), timeout)
    ensures n >= 1 && (forall j: nat | j != id :: !Shell(db, j)) ==>
              NoShells(RunTo(db, JoinProgram(db, k, id, at, window), n))
  {
    JoinPrefix(db, k, id, at, window, n);
    var db' := RunTo(db, JoinProgram(db, k, id, at, window), n);
    if n != 0 {
      ShellsBelow(db, db', k, id);
      assert db'.events[k].episode == Some(id);
      assert HasEvents(db'.events, id);
      MatchesKept(db, db', timeout, k, id);
    } else {
      assert db.episodes[id := db.episodes[id]] == db.episodes;
    }
  }

  /** Nothing that decides orphans and shells changes, except that open rows may be sealed. */
  ghost predicate Calm(db: Db, db': Db, timeout: int) {
    && |db'.episodes| == |db.episodes|
    && (forall id | 0 <= id < |db.episodes| ::
          && db'.episodes[id].area == db.episodes[id].area && db'.episodes[id].start == db.episodes[id].start
          && (db'.episodes[id].Open() ==> db.episodes[id].Open())
          && (Shell(db, id) ==> db'.episodes[id].eventCount == 0)
          && (Shell(db, id) ==> db'.episodes[id].Deadline(timeout) == db.episodes[id].Deadline(timeout))
          && (db'.episodes[id].eventCount == 0 ==> db.episodes[id].eventCount == 0))
    && db'.events.Keys == db.events.Keys
    && (forall k | k in db.events ::
          && db'.events[k].Orphan() == db.events[k].Orphan()
          && (db.events[k].episode.Some? ==> db'.events[k].episode == db.events[k].episode)
          && db'.events[k].area == db.events[k].area && db'.events[k].timestamp == db.events[k].timestamp
          && (db.events[k].Orphan() ==>
                Backfilled(db'.events[k]).RecoveryIngress() == Backfilled(db.events[k]).RecoveryIngress()))
  }

  lemma CalmShells(db: Db, db': Db, timeout: int, id: nat)
    requires Calm(db, db', timeout) && Shell(db', id)
    ensures Shell(db, id)
  {
    assert forall k | k in db.events :: db.events[k].episode == Some(id) ==> db'.events[k].episode == Some(id);
  }

  lemma CalmRecoverable(db: Db, db': Db, timeout: int)
    requires Calm(db, db', timeout) && Recoverable(db, timeout)
    ensures Recoverable(db', timeout)
    ensures NoShells(db) ==> NoShells(db')
  {
    forall id: nat | Shell(db', id) ensures Shell(db, id) {
      CalmShells(db, db', timeout, id);
    }
    forall id: nat | Shell(db', id) ensures exists k :: ShellOf(db', timeout, id, k) {
      var k :| ShellOf(db, timeout, id, k);
      assert ShellOf(db', timeout, id, k);
    }
  }

  /** Changing an Event that cannot be an orphan and a row that is no shell is calm. */
  lemma OneRowCalm(db: Db, timeout: int, k: Key, e: Event, id: EpisodeId, r: Episode)
    requires k in db.events && !db.events[k].Drives() && db.events[k].episode.None?
    requires e.area == db.events[k].area && e.timestamp == db.events[k].timestamp && !e.Drives()
    requires id < |db.episodes| && !Shell(db, id)
    requires r.area == db.episodes[id].area && r.start == db.episodes[id].start && r.state == db.episodes[id].state
    requires r.eventCount == 0 ==> db.episodes[id].eventCount == 0
    ensures Calm(db, db.(events := db.events[k := e], episodes := db.episodes[id := r]), timeout)
    ensures Calm(db, db.(events := db.events[k := e]), timeout)
  {
  }

  lemma AttachCalm(c: Core, k: Key, at: Time, recovery: bool, n: nat)
    requires k in c.db.events && c.db.events[k].episode.None? && !c.db.events[k].Drives()
    requires !recovery ==> NoShells(c.db)
    requires Consistent(c.db) && n <= |AttachProgram(c, k, at, recovery)|
    ensures Calm(c.db, RunTo(c.db, AttachProgram(c, k, at, recovery), n), c.timeout)
  {
    AttachPrefix(c, k, at, recovery, n);
    var target := FindOpenEpisode(c.db, c.db.events[k].area, at, c.timeout, c.grace, recovery);
    if target.Some? {
      FoundIsNoShell(c, c.db.events[k].area, at, recovery);
      LinkedCalm(c.db, c.timeout, k, target.value);
    } else {
      RecordedCalm(c.db, c.timeout, k, NoOpenEpisode);
    }
    UnchangedCalm(c.db, c.timeout);
  }

  lemma HeldAttachCalm(c: Core, k: Key, at: Time, recovery: bool, n: nat)
    requires k in c.db.events && c.db.events[k].episode.Some? && !c.db.events[k].Drives()
    requires n <= |AttachProgram(c, k, at, recovery)|
    ensures Calm(c.db, RunTo(c.db, AttachProgram(c, k, at, recovery), n), c.timeout)
  {
    HeldAttachPrefix(c, k, at, recovery, n);
    UnchangedCalm(c.db, c.timeout);
    RecordedCalm(c.db, c.timeout, k, NoOpenEpisode);
    RecordedCalm(c.db, c.timeout, k, Attached);
  }

  lemma FoundIsNoShell(c: Core, area: Area, at: Time, recovery: bool)
    requires !recovery ==> NoShells(c.db)
    ensures var target := FindOpenEpisode(c.db, area, at, c.timeout, c.grace, recovery);
            target.Some? ==> !Shell(c.db, target.value)
  {
  }

  lemma UnchangedCalm(db: Db, timeout: int)
    ensures Calm(db, db, timeout)
  {
  }

  lemma RecordedCalm(db: Db, timeout: int, k: Key, attachment: Attachment)
    requires k in db.events && !db.events[k].Drives()
    ensures Calm(db, db.(events := db.events[k := AttachedEvent(db.events[k], attachment)]), timeout)
  {
  }

  /** An Event that may not drive capture joins a row that is no shell. */
  lemma LinkedCalm(db: Db, timeout: int, k: Key, id: EpisodeId)
    requires k in db.events && !db.events[k].Drives() && db.events[k].episode.None?
    requires id < |db.episodes| && !Shell(db, id) && Consistent(db)
    ensures var linked := db.events[k].(episode := Some(id));
            var rows := db.episodes[id := CountedRow(db.episodes[id])];
            Calm(db, db.(events := db.events[k := linked], episodes := rows), timeout)
            && Calm(db, db.(events := db.events[k := AttachedEvent(linked, Attached)], episodes := rows), timeout)
  {
    var linked, r := db.events[k].(episode := Some(id)), CountedRow(db.episodes[id]);
    OneRowCalm(db, timeout, k, linked, id, r);
    OneRowCalm(db, timeout, k, AttachedEvent(linked, Attached), id, r);
  }

  lemma InactiveCalm(c: Core, k: Key, n: nat)
    requires k in c.db.events && c.db.events[k].episode.None? && !c.db.events[k].Drives()
    requires Consistent(c.db) && n <= |InactiveProgram(c.db, k)|
    ensures Calm(c.db, RunTo(c.db, InactiveProgram(c.db, k), n), c.timeout)
  {
    InactivePrefix(c.db, k, n);
    if n != 0 {
      var e := c.db.events[k];
      var id := InactiveTarget(c.db, k).value;
      var j :| Precedes(c.db.events, j, k) && c.db.events[j].episode == Some(id);
      assert HasEvents(c.db.events, id);
      var r := WithTimes(c.db.episodes[id], e.timestamp, None);
      OneRowCalm(c.db, c.timeout, k, if n == 1 then e else e.(episode := Some(id)), id,
                 if n == 1 then r else CountedRow(r));
      assert n == 1 ==> c.db.events[k := e] == c.db.events;
    }
  }

  /** The Event is still to be linked, or was only to be attached. */
  predicate Unlinked(e: Event) {
    e.episode.None? || (e.state.ActiveEvent? && !e.Drives())
  }

  /** Any prefix of a correlation leaves a recoverable database. */
  lemma SettleRecoverable(c: Core, k: Key, at: Time, window: int, recovery: bool, n: nat)
    requires Consistent(c.db) && Recoverable(c.db, c.timeout) && k in c.db.events && Unlinked(c.db.events[k])
    requires !recovery ==> NoShells(c.db)
    requires !CanBackfill(c.db.events[k]) || !c.db.events[k].Orphan()
    requires c.db.events[k].Orphan() ==> c.db.events[k].RecoveryIngress().value <= at + window
    requires recovery ==> c.db.events[k].Pending() && c.db.events[k].RecoveryIngress() == Some(at) && 0 <= c.grace
    requires n <= |SettleProgram(c, k, at, window, recovery)|
    ensures Recoverable(RunTo(c.db, SettleProgram(c, k, at, window, recovery), n), c.timeout)
  {
    var db := c.db;
    var e := db.events[k];
    if e.area == NO_AREA {
    } else if e.state.InactiveEvent? {
      InactiveCalm(c, k, n);
      CalmRecoverable(db, RunTo(db, InactiveProgram(db, k), n), c.timeout);
    } else if e.Drives() {
      var target := Target(c, k, at, recovery);
      if recovery {
        RecoveryTarget(c, k, at);
      }
      if target.Some? {
        JoinRecoverable(db, c.timeout, k, target.value, at, window, n);
      } else {
        CreateRecoverable(db, c.timeout, k, at, window, n);
      }
    } else if e.decision.Some? && e.decision.value.classFiltered {
      if e.episode.None? {
        AttachCalm(c, k, at, recovery, n);
      } else {
        HeldAttachCalm(c, k, at, recovery, n);
      }
      CalmRecoverable(db, RunTo(db, AttachProgram(c, k, at, recovery), n), c.timeout);
    }
  }

  /** Recovery finds the shell of its Event whenever one exists. */
  lemma RecoveryTarget(c: Core, k: Key, at: Time)
    requires Recoverable(c.db, c.timeout) && k in c.db.events && c.db.events[k].Orphan() && 0 <= c.grace
    requires c.db.events[k].RecoveryIngress() == Some(at) && !CanBackfill(c.db.events[k])
    ensures forall id: nat | Shell(c.db, id) && c.db.episodes[id].area == c.db.events[k].area ::
              Target(c, k, at, true) == Some(id)
  {
    var db := c.db;
    forall id: nat | Shell(db, id) && db.episodes[id].area == db.events[k].area
      ensures Target(c, k, at, true) == Some(id)
    {
      var i :| ShellOf(db, c.timeout, id, i);
      assert i == k;
      assert MatchingShell(db, id, db.events[k]);
      assert forall j: nat | MatchingShell(db, j, db.events[k]) :: Shell(db, j) && j == id;
      assert SoleShell(db, id, db.events[k], at, c.timeout, c.grace);
    }
  }

  // ----- every action, at every crash point ----------------------------------------------------------

  lemma BackfillCalm(c: Core, k: Key)
    requires k in c.db.events
    ensures Calm(c.db, AfterBackfill(c, k).db, c.timeout)
    ensures !CanBackfill(AfterBackfill(c, k).db.events[k])
  {
  }

  /** While every pending Event is in flight, a redelivery that overtakes nothing correlates at most an Event
      that was only to be attached. */
  lemma ResumesOnlyFiltered(s: Sys, a: Action)
    requires Enabled(s, a) && a.RedeliverKnown? && OrphansHeld(s) && !Overtakes(s, a)
    ensures var x := CorrelationOf(s, a);
      (x.runs <==> Resumes(s, a)) && (x.runs ==> x.key == a.d.key && x.recovery && !x.core.db.events[x.key].Drives())
      && Next(s, a) == s.(core := if x.runs then Settle(x.core, x.key, x.at, x.window, true) else x.core)
  {
  }

  /** With no shells, one orphan per Area is all there is to show. */
  lemma ReceiptsRecoverable(db: Db, db': Db, timeout: int)
    requires ReceiptsOnly(db, db') && NoShells(db) && OneOrphanPerArea(db)
    ensures Recoverable(db', timeout) && NoShells(db')
  {
    forall id: nat | Shell(db', id) ensures Shell(db, id) {
      assert forall k | k in db.events :: db'.events[k].episode == db.events[k].episode;
    }
  }

  lemma CorrelatingRecoverable(s: Sys, a: Action, n: nat)
    requires Sound(s) && CrashSafe(s) && Enabled(s, a) && Correlates(a) && n <= |Program(s, a)|
    ensures Recoverable(RunTo(s.core.db, Program(s, a), n), s.core.timeout)
  {
    var db', m, early := CorrelatingPrefix(s, a, n);
    var x := CorrelationOf(s, a);
    if early {
      if a.RedeliverKnown? {
        ReceiptsRecoverable(s.core.db, db', s.core.timeout);
      }
    } else {
      LinkedReceiptsRecoverable(s, a);
      if x.runs {
        CorrelationReady(s, a);
        SettleRecoverable(x.core, x.key, x.at, x.window, x.recovery, m);
      }
    }
  }

  /** The database a correlation starts from, its Receipts linked. */
  lemma LinkedReceiptsRecoverable(s: Sys, a: Action)
    requires Sound(s) && CrashSafe(s) && Enabled(s, a) && Correlates(a)
    ensures var db := CorrelationOf(s, a).core.db; Consistent(db) && Recoverable(db, s.core.timeout)
  {
    var x := CorrelationOf(s, a);
    ReceiptsOnlyConsistent(s.core.db, x.core.db);
    if a.RedeliverKnown? {
      ReceiptsRecoverable(s.core.db, x.core.db, s.core.timeout);
    } else if a.RecoverOne? && x.runs {
      BackfillCalm(s.core, a.key);
      CalmRecoverable(s.core.db, x.core.db, s.core.timeout);
    }
  }

  /** What `SettleRecoverable` asks of the Event. */
  predicate Ready(x: Correlation)
    requires x.key in x.core.db.events
  {
    var e := x.core.db.events[x.key];
    && Unlinked(e) && (!CanBackfill(e) || !e.Orphan())
    && (e.Orphan() ==> e.RecoveryIngress().Some? && e.RecoveryIngress().value <= x.at + x.window)
    && (x.recovery ==> e.Pending() && e.RecoveryIngress() == Some(x.at))
  }

  lemma RecoveryReady(c: Core, k: Key, fallback: int)
    requires k in c.db.events && c.db.events[k].Pending() && 1 <= fallback
    ensures Ready(RecoveryCorrelation(c, k, fallback))
  {
  }

  lemma CorrelationReady(s: Sys, a: Action)
    requires Sound(s) && CrashSafe(s) && Enabled(s, a) && Correlates(a) && CorrelationOf(s, a).runs
    ensures Ready(CorrelationOf(s, a)) && (!CorrelationOf(s, a).recovery ==> NoShells(CorrelationOf(s, a).core.db))
  {
    match a
    case SettleFlight(k) => assert InFlight(s, k);
    case RecoverOne(k, fallback) => RecoveryReady(s.core, k, fallback);
    case RedeliverKnown(d, fallback) => RecoveryReady(AfterReceipt(s.core, d), d.key, fallback);
  }

  lemma EvidenceCalm(db: Db, db': Db, timeout: int)
    requires EvidenceOnly(db, db')
    ensures Calm(db, db', timeout)
  {
  }

  lemma TimeOutCalm(db: Db, now: Time, timeout: int, grace: int)
    ensures Calm(db, Apply(db, TimeOut(now, timeout, grace)), timeout)
  {
  }

  lemma CloseCalm(db: Db, id: EpisodeId, at: Time, timeout: int)
    ensures Calm(db, Apply(db, MarkClosed(id, at)), timeout)
  {
  }

  /** A first delivery adds an orphan only to an Area whose lock was free. */
  lemma BeginRecoverable(s: Sys, d: Delivery)
    requires Sound(s) && CrashSafe(s) && Enabled(s, Begin(d))
    ensures var db' := Apply(s.core.db, InsertEvent(d.key, d.NewEvent()));
            Recoverable(db', s.core.timeout) && NoShells(db')
  {
    var db := s.core.db;
    var db' := Apply(db, InsertEvent(d.key, d.NewEvent()));
    forall id: nat | Shell(db', id) ensures Shell(db, id) {
      assert forall k | k in db.events :: db'.events[k] == db.events[k];
    }
    forall k | k in db.events && db.events[k].Orphan() ensures db.events[k].area != d.area {
      assert db.events[k].Pending();
      assert InFlight(s, k);
    }
  }

  /** Every prefix of every action leaves a recoverable database. */
  lemma ActionRecoverable(s: Sys, a: Action, n: nat)
    requires Sound(s) && CrashSafe(s) && Enabled(s, a) && n <= |Program(s, a)|
    ensures Recoverable(RunTo(s.core.db, Program(s, a), n), s.core.timeout)
  {
    var db, timeout := s.core.db, s.core.timeout;
    if Correlates(a) {
      CorrelatingRecoverable(s, a, n);
    } else if a.AddEvidence? || a.PlaceEvidence? {
      EvidencePrefix(db, Program(s, a), n);
      EvidenceCalm(db, RunTo(db, Program(s, a), n), timeout);
      CalmRecoverable(db, RunTo(db, Program(s, a), n), timeout);
    } else if n == 1 {
      assert RunTo(db, Program(s, a), 0) == db;
      SingleRecoverable(s, a);
    }
  }

  /** The completed single-transaction actions. */
  lemma SingleRecoverable(s: Sys, a: Action)
    requires Sound(s) && CrashSafe(s) && Enabled(s, a) && !Correlates(a) && !a.AddEvidence? && !a.PlaceEvidence?
    requires |Program(s, a)| == 1
    ensures var db' := Apply(s.core.db, Program(s, a)[0]);
            Recoverable(db', s.core.timeout) && (NoShells(s.core.db) ==> NoShells(db'))
  {
    var db, timeout := s.core.db, s.core.timeout;
    match Program(s, a)[0]
    case InsertEvent(_, _) => BeginRecoverable(s, a.d);
    case LinkReceipt(k, received) => ReceiptsRecoverable(db, Apply(db, LinkReceipt(k, received)), timeout);
    case Backfill(k) =>
      BackfillCalm(s.core, k);
      CalmRecoverable(db, Apply(db, Backfill(k)), timeout);
    case TimeOut(now, _, grace) =>
      TimeOutCalm(db, now, timeout, grace);
      CalmRecoverable(db, Apply(db, TimeOut(now, timeout, grace)), timeout);
    case MarkClosed(id, at) =>
      CloseCalm(db, id, at, timeout);
      CalmRecoverable(db, Apply(db, MarkClosed(id, at)), timeout);
    case SaveGrace(grace) => CalmRecoverable(db, Apply(db, SaveGrace(grace)), timeout);
  }

  // ----- what completed actions keep while running --------------------------------------------------

  lemma SettledNotPending(c: Core, k: Key, at: Time, window: int)
    requires Consistent(c.db) && NoShells(c.db) && k in c.db.events && Unlinked(c.db.events[k])
    requires Recoverable(c.db, c.timeout)
    requires !CanBackfill(c.db.events[k]) || !c.db.events[k].Orphan()
    requires c.db.events[k].Orphan() ==> c.db.events[k].RecoveryIngress().value <= at + window
    ensures var db' := Settle(c, k, at, window, false).db;
            && k in db'.events && !db'.events[k].Pending() && NoShells(db')
  {
    var db := c.db;
    var e := db.events[k];
    if e.area == NO_AREA {
    } else if e.state.InactiveEvent? {
      var p := InactiveProgram(db, k);
      InactiveCalm(c, k, |p|);
      InactivePrefix(db, k, |p|);
      CalmRecoverable(db, Run(db, p), c.timeout);
    } else if e.Drives() {
      var target := Target(c, k, at, false);
      if target.Some? {
        var p := JoinProgram(db, k, target.value, at, window);
        JoinPrefix(db, k, target.value, at, window, |p|);
        JoinRecoverable(db, c.timeout, k, target.value, at, window, |p|);
      } else {
        CreatePrefix(db, k, at, window, 4);
        CreateRecoverable(db, c.timeout, k, at, window, 4);
      }
    } else if e.decision.Some? && e.decision.value.classFiltered {
      var p := AttachProgram(c, k, at, false);
      if e.episode.None? {
        AttachCalm(c, k, at, false, |p|);
        AttachPrefix(c, k, at, false, |p|);
      } else {
        HeldAttachCalm(c, k, at, false, |p|);
        HeldAttachPrefix(c, k, at, false, |p|);
      }
      CalmRecoverable(db, Run(db, p), c.timeout);
    }
  }

  lemma SettleFlightSafe(s: Sys, k: Key)
    requires Sound(s) && CrashSafe(s) && Enabled(s, SettleFlight(k))
    ensures CrashSafe(Next(s, SettleFlight(k)))
  {
    var a := SettleFlight(k);
    var s' := Next(s, a);
    var f := FlightOf(s, k);
    ActionRecoverable(s, a, |Program(s, a)|);
    NextCommitsProgram(s, a);
    SettledNotPending(s.core, k, f.at, f.window);
    SettleTouchesOnly(s.core, k, f.at, f.window, false, |Program(s, a)|);
    forall j | j in s'.core.db.events && s'.core.db.events[j].Pending() ensures InFlight(s', j) {
      assert j != k && InFlight(s, j);
    }
    FreshExactly(s, Do(a));
  }

  lemma RedeliverSafe(s: Sys, a: Action)
    requires Sound(s) && CrashSafe(s) && Enabled(s, a) && a.RedeliverKnown? && !Overtakes(s, a)
    ensures CrashSafe(Next(s, a))
  {
    FreshExactly(s, Do(a));
    if Resumes(s, a) {
      ResumedSafe(s, a);
    } else {
      RedeliveryInertExactly(s, a);
      ReceiptsSafe(s, a.d);
    }
  }

  /** Attaching an Event by its redelivery. */
  lemma ResumedSafe(s: Sys, a: Action)
    requires Sound(s) && CrashSafe(s) && Enabled(s, a) && a.RedeliverKnown? && !Overtakes(s, a) && Resumes(s, a)
    ensures CrashSafe(Next(s, a))
  {
    var s' := Next(s, a);
    ResumedRecoverable(s, a);
    ResumedOthers(s, a);
    FreshExactly(s, Do(a));
    forall j | j in s'.core.db.events && s'.core.db.events[j].Pending() ensures InFlight(s', j) {
      assert j != a.d.key && InFlight(s, j);
    }
  }

  lemma ResumedRecoverable(s: Sys, a: Action)
    requires Sound(s) && CrashSafe(s) && Enabled(s, a) && a.RedeliverKnown? && !Overtakes(s, a) && Resumes(s, a)
    ensures Recoverable(Next(s, a).core.db, s.core.timeout) && NoShells(Next(s, a).core.db)
    ensures !s.core.db.events[a.d.key].Drives()
  {
    var x := CorrelationOf(s, a);
    ResumesOnlyFiltered(s, a);
    ReceiptsRecoverable(s.core.db, x.core.db, s.core.timeout);
    ReceiptsOnlyConsistent(s.core.db, x.core.db);
    AttachCalm(x.core, x.key, x.at, true, |AttachProgram(x.core, x.key, x.at, true)|);
    CalmRecoverable(x.core.db, Next(s, a).core.db, s.core.timeout);
  }

  /** A redelivery that resumes settles its Event and leaves the others alone. */
  lemma ResumedOthers(s: Sys, a: Action)
    requires Consistent(s.core.db) && Enabled(s, a) && Resumes(s, a)
    ensures var db' := Next(s, a).core.db;
      db'.events.Keys == s.core.db.events.Keys && !db'.events[a.d.key].Pending()
      && (db'.events[a.d.key].Drives() <==> s.core.db.events[a.d.key].Drives())
      && db'.events[a.d.key].area == s.core.db.events[a.d.key].area
      && forall j | j in s.core.db.events && j != a.d.key :: db'.events[j] == s.core.db.events[j]
  {
    var c := AfterReceipt(s.core, a.d);
    RedeliverOthers(s.core, a.d);
    ReceiptsOnlyConsistent(s.core.db, c.db);
    RecoverSettles(c, a.d.key, a.fallback);
    RecoverKeepsKind(c, a.d.key, a.fallback);
  }

  lemma RecoverKeepsKind(c: Core, k: Key, fallback: int)
    requires k in c.db.events
    ensures var db' := Recover(c, k, fallback).db; k in db'.events && SameKind(c.db.events[k], db'.events[k])
  {
    if c.db.events[k].Pending() {
      var x := RecoveryCorrelation(c, k, fallback);
      SettleTouchesOnly(x.core, k, x.at, x.window, true, |CorrelationProgram(x)|);
      assert SameKind(x.core.db.events[k], Run(x.core.db, CorrelationProgram(x)).events[k]);
    }
  }

  lemma ReceiptsSafe(s: Sys, d: Delivery)
    requires Sound(s) && CrashSafe(s) && s.phase.Running? && d.key in s.core.db.events
    requires d.Conflicts(s.core.db.events[d.key]) || !s.core.db.events[d.key].Pending()
    ensures CrashSafe(s.(core := AfterReceipt(s.core, d)))
  {
    var s' := s.(core := AfterReceipt(s.core, d));
    ReceiptsRecoverable(s.core.db, s'.core.db, s.core.timeout);
    RedeliverOthers(s.core, d);
    forall j | j in s'.core.db.events && s'.core.db.events[j].Pending() ensures InFlight(s', j) {
      assert s.core.db.events[j].Pending();
    }
    forall b | b in s'.flights && s'.core.db.events[s'.flights[b].key].Orphan()
      ensures s'.core.db.events[s'.flights[b].key] == s.core.db.events[s'.flights[b].key]
    {
      assert s.core.db.events[s.flights[b].key].Pending();
    }
  }

  /** A redelivery links Receipts only to its own Event, and not at all when it conflicts. */
  lemma RedeliverOthers(c: Core, d: Delivery)
    requires d.key in c.db.events
    ensures forall j | j in c.db.events && (j != d.key || d.Conflicts(c.db.events[j])) ::
              AfterReceipt(c, d).db.events[j] == c.db.events[j]
  {
    ReceiptOthers(c.db, d, |ReceiptProgram(c.db, d)|);
  }

  lemma ReceiptOthers(db: Db, d: Delivery, n: nat)
    requires d.key in db.events && n <= |ReceiptProgram(db, d)|
    ensures var db' := RunTo(db, ReceiptProgram(db, d), n);
            db'.events.Keys == db.events.Keys
            && forall j | j in db.events && (j != d.key || d.Conflicts(db.events[j])) :: db'.events[j] == db.events[j]
  {
    if n != 0 {
      ReceiptOthers(db, d, n - 1);
    }
  }

  lemma BeginSafe(s: Sys, d: Delivery)
    requires Sound(s) && CrashSafe(s) && Enabled(s, Begin(d)) && Punctual(d)
    ensures CrashSafe(Next(s, Begin(d)))
  {
    BeginRecoverable(s, d);
    var s' := Next(s, Begin(d));
    forall j | j in s'.core.db.events && s'.core.db.events[j].Pending() ensures InFlight(s', j) {
      if j != d.key {
        assert InFlight(s, j);
      }
    }
    forall b | b in s'.flights && b != d.area ensures s'.flights[b].key != d.key {
    }
    FreshExactly(s, Do(Begin(d)));
  }

  lemma LinkedTimely(s: Sys, k: Key)
    requires FlightsOk(s) && FlightsTimely(s) && Enabled(s, LinkFlight(k))
    ensures FlightsTimely(Next(s, LinkFlight(k)))
  {
    var s' := Next(s, LinkFlight(k));
    var e := s.core.db.events[k];
    var f := s.flights[e.area];
    var e' := LinkedReceipt(e, f.receipt.value);
    assert e'.RecoveryIngress().value <= f.at && !CanBackfill(e');
    forall b | b in s'.flights && b != e.area
      ensures s'.flights[b] == s.flights[b] && s'.core.db.events[s.flights[b].key] == s.core.db.events[s.flights[b].key]
    {
    }
    assert s'.core.db.events[k] == e' && s'.flights[e.area] == f.(receipt := None);
    assert e'.Drives() ==> 0 <= f.window;
  }

  lemma LinkFlightSafe(s: Sys, k: Key)
    requires Sound(s) && CrashSafe(s) && Enabled(s, LinkFlight(k))
    ensures CrashSafe(Next(s, LinkFlight(k)))
  {
    var s' := Next(s, LinkFlight(k));
    LinkedTimely(s, k);
    ReceiptsRecoverable(s.core.db, s'.core.db, s.core.timeout);
    forall j | j in s'.core.db.events && s'.core.db.events[j].Pending() ensures InFlight(s', j) {
      assert s.core.db.events[j].Pending() && InFlight(s, j);
    }
    FreshExactly(s, Do(LinkFlight(k)));
  }

  /** A state with the same Events and locks is as safe as its database. */
  lemma SameEventsSafe(s: Sys, s': Sys)
    requires CrashSafe(s) && s'.core.db.events == s.core.db.events && s'.flights == s.flights && s'.phase == s.phase
    requires s'.core.timeout == s.core.timeout && Recoverable(s'.core.db, s.core.timeout)
    requires NoShells(s.core.db) ==> NoShells(s'.core.db)
    ensures CrashSafe(s')
  {
  }

  lemma EvidenceSafe(s: Sys, a: Action)
    requires Sound(s) && CrashSafe(s) && Enabled(s, a) && (a.AddEvidence? || a.PlaceEvidence?)
    ensures CrashSafe(Next(s, a))
  {
    var db, p := s.core.db, Program(s, a);
    EvidencePrefix(db, p, |p|);
    EvidenceCalm(db, Run(db, p), s.core.timeout);
    CalmRecoverable(db, Run(db, p), s.core.timeout);
    SameEventsSafe(s, Next(s, a));
  }

  /** Actions that touch neither Events nor locks. */
  lemma QuietSafe(s: Sys, a: Action)
    requires Sound(s) && CrashSafe(s) && Enabled(s, a)
    requires a.Idle? || a.TickAt? || a.ReleaseFinalization? || a.CloseFinalized? || a.ChangeGrace?
    ensures CrashSafe(Next(s, a))
  {
    if |Program(s, a)| == 1 {
      SingleRecoverable(s, a);
    }
    SameEventsSafe(s, Next(s, a));
  }

  lemma SettledHasNoShells(db: Db, timeout: int)
    requires Recoverable(db, timeout) && NothingPending(db)
    ensures NoShells(db)
  {
    assert forall id: nat, k :: ShellOf(db, timeout, id, k) ==> db.events[k].Pending();
  }

  lemma FinishSafe(s: Sys, now: Time)
    requires Sound(s) && CrashSafe(s) && Enabled(s, FinishRecovery(now))
    ensures CrashSafe(Next(s, FinishRecovery(now)))
  {
    SettledHasNoShells(s.core.db, s.core.timeout);
    TimeOutCalm(s.core.db, now, s.core.timeout, s.core.grace);
    CalmRecoverable(s.core.db, Next(s, FinishRecovery(now)).core.db, s.core.timeout);
  }

  lemma RestartSafe(s: Sys, a: Action)
    requires Sound(s) && CrashSafe(s) && Enabled(s, a) && (a.StartUp? || a.BackfillOne? || a.RecoverOne?)
    ensures CrashSafe(Next(s, a))
  {
    NextCommitsProgram(s, a);
    ActionRecoverable(s, a, |Program(s, a)|);
    if a.RecoverOne? {
      NextSettles(s, a);
    }
  }

  /** Every step that overtakes nothing keeps the database recoverable and, while running, free of shells. */
  lemma CrashSafeStep(s: Sys, step: Step)
    requires Sound(s) && CrashSafe(s) && StepEnabled(s, step) && PunctualStep(step)
    requires step.Do? ==> !Overtakes(s, step.action)
    ensures CrashSafe(Take(s, step))
  {
    var a := step.action;
    if step.CrashDuring? {
      ActionRecoverable(s, a, step.committed);
    } else if a.StartUp? || a.BackfillOne? || a.RecoverOne? {
      RestartSafe(s, a);
    } else {
      match a
      case Begin(d) => BeginSafe(s, d);
      case LinkFlight(k) => LinkFlightSafe(s, k);
      case SettleFlight(k) => SettleFlightSafe(s, k);
      case RedeliverKnown(_, _) => RedeliverSafe(s, a);
      case FinishRecovery(now) => FinishSafe(s, now);
      case AddEvidence(_, _, _, _) => EvidenceSafe(s, a);
      case PlaceEvidence(_, _) => EvidenceSafe(s, a);
      case _ => QuietSafe(s, a);
    }
  }

  /** The crash-recovery theorem: over any run with any number of crashes in which no redelivery overtakes its
      first delivery, each Area has at most one unassigned driving Event and at most one empty Episode, which
      matches it; and once a restart has completed no empty Episode exists and every driving Event that has an
      Area and is not mid-delivery has an Episode of that Area. */
  lemma {:induction false} CrashRecoveryTheorem(s: Sys, steps: seq<Step>)
    requires Sound(s) && CrashSafe(s) && Behaves(s, steps)
    requires (forall step | step in steps :: PunctualStep(step)) && NoOvertaking(s, steps)
    ensures var s' := After(s, steps);
            && Sound(s') && CrashSafe(s')
            && (s'.phase.Running? ==>
                  NoShells(s'.core.db) &&
                  forall k | k in s'.core.db.events && s'.core.db.events[k].Drives()
                             && s'.core.db.events[k].area != NO_AREA && !InFlight(s', k) ::
                    s'.core.db.events[k].episode.Some?
                    && s'.core.db.events[k].episode.value < |s'.core.db.episodes|
                    && s'.core.db.episodes[s'.core.db.events[k].episode.value].area == s'.core.db.events[k].area)
    decreases |steps|
  {
    if steps == [] {
      forall k | k in s.core.db.events && s.core.db.events[k].Drives()
                 && s.core.db.events[k].area != NO_AREA && !InFlight(s, k) && s.phase.Running?
        ensures s.core.db.events[k].episode.Some?
      {
        assert !s.core.db.events[k].Pending();
      }
    } else {
      assert steps[0] in steps;
      CrashSafeStep(s, steps[0]);
      SoundStep(s, steps[0]);
      CrashRecoveryTheorem(Take(s, steps[0]), steps[1..]);
    }
  }

  // ----- recovery completes ----------------------------------------------------------------------------

  /** Recovering an Event settles it and leaves every other Event as it was. */
  lemma RecoverSettles(c: Core, k: Key, fallback: int)
    requires Consistent(c.db) && k in c.db.events && 1 <= fallback
    ensures var db' := Recover(c, k, fallback).db;
            && db'.events.Keys == c.db.events.Keys && !db'.events[k].Pending()
            && forall j | j in c.db.events && j != k :: db'.events[j] == c.db.events[j]
  {
    if c.db.events[k].Pending() {
      var x := RecoveryCorrelation(c, k, fallback);
      var p := SettleProgram(x.core, k, x.at, x.window, true);
      SettleTouchesOnly(x.core, k, x.at, x.window, true, |p|);
      var e := x.core.db.events[k];
      if e.Drives() {
        var target := Target(x.core, k, x.at, true);
        if target.Some? {
          JoinPrefix(x.core.db, k, target.value, x.at, x.window, |p|);
        } else {
          CreatePrefix(x.core.db, k, x.at, x.window, 4);
        }
      } else {
        AttachPrefix(x.core, k, x.at, true, |p|);
      }
    }
  }

  function RecoverySteps(ks: seq<Key>): seq<Step> {
    if ks == [] then [] else [Do(RecoverOne(ks[0], 1))] + RecoverySteps(ks[1..])
  }

  /** Visiting every pending Event once, in any order, lets recovery finish. */
  lemma {:induction false} RecoveryCompletes(s: Sys, ks: seq<Key>)
    requires Sound(s) && s.phase.Recovering?
    requires forall k | k in ks :: k in s.core.db.events
    requires forall k | k in s.core.db.events && s.core.db.events[k].Pending() :: k in ks
    ensures Behaves(s, RecoverySteps(ks))
    ensures After(s, RecoverySteps(ks)).phase.Recovering? && NothingPending(After(s, RecoverySteps(ks)).core.db)
    decreases |ks|
  {
    if ks != [] {
      var step := Do(RecoverOne(ks[0], 1));
      assert ks[0] in ks;
      RecoverSettles(s.core, ks[0], 1);
      SoundStep(s, step);
      var s' := Take(s, step);
      forall k | k in s'.core.db.events && s'.core.db.events[k].Pending() ensures k in ks[1..] {
        assert k != ks[0] && k in ks;
      }
      forall k | k in ks[1..] ensures k in s'.core.db.events {
        assert k in ks;
      }
      RecoveryCompletes(s', ks[1..]);
      assert RecoverySteps(ks)[1..] == RecoverySteps(ks[1..]);
    }
  }

  /** Without a Receipt the ingress time is only estimated.  Recovery reclaims the shell of an Event
      exactly when that estimate is no later than the end of the shell's settling horizon; otherwise
      the shell stays behind, empty. */
  lemma ShellReclaimedExactly(c: Core, k: Key, fallback: int, id: EpisodeId)
    requires Consistent(c.db) && k in c.db.events && c.db.events[k].Orphan()
    requires Shell(c.db, id) && MatchingShell(c.db, id, c.db.events[k])
    requires forall j: nat | MatchingShell(c.db, j, c.db.events[k]) :: j == id
    ensures !Shell(Recover(c, k, fallback).db, id) <==>
            Backfilled(c.db.events[k]).RecoveryIngress().value <= c.db.episodes[id].Deadline(c.timeout) + c.grace
  {
    var x := RecoveryCorrelation(c, k, fallback);
    var db := x.core.db;
    forall j: nat ensures MatchingShell(db, j, db.events[k]) <==> MatchingShell(c.db, j, c.db.events[k]) {
      assert forall i | i in c.db.events :: db.events[i].episode == c.db.events[i].episode;
    }
    var target := Target(x.core, k, x.at, true);
    var p := SettleProgram(x.core, k, x.at, x.window, true);
    if x.at <= c.db.episodes[id].Deadline(c.timeout) + c.grace {
      assert SoleShell(db, id, db.events[k], x.at, c.timeout, c.grace);
      JoinPrefix(db, k, id, x.at, x.window, |p|);
      assert Run(db, p).events[k].episode == Some(id);
    } else {
      assert FindShell(db, k, x.at, c.timeout, c.grace).None?;
      if target.Some? {
        JoinPrefix(db, k, target.value, x.at, x.window, |p|);
        ShellsBelow(db, Run(db, p), k, target.value);
      } else {
        CreatePrefix(db, k, x.at, x.window, 4);
        ShellsBelow(db, Run(db, p), k, |db.episodes|);
      }
    }
  }
}
