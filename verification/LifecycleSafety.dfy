/** Lifecycle safety over every run: which state moves happen and when, what a sealed Episode
    keeps, and that links and deadlines are never taken back. */
module LifecycleSafety {
  import opened Domain
  import opened Store
  import opened Lifecycle
  import opened Protocol
  import opened Footprints
  import opened Invariants

  /** The instant a timer pass observes, for the actions that run one. */
  function TimerOf(a: Action): Option<Time> {
    match a
    case TickAt(now) => Some(now)
    case FinishRecovery(now) => Some(now)
    case ReleaseFinalization(now) => Some(now)
    case _ => None
  }

  /** The only state moves, with the reason for each. */
  predicate StateMove(c: Core, a: Action, r: Episode, r': Episode) {
    var timer := TimerOf(a);
    || r'.state == r.state
    || (r.state.Active? && r'.state.Quiescent? && timer.Some? && r.Deadline(c.timeout) <= timer.value)
    || (r.state.Quiescent? && r'.state.Active? && Correlates(a))
    || (r.Open() && r'.state.Finalizing? && timer.Some? && r.Deadline(c.timeout) + c.grace < timer.value)
    || (r.state.Finalizing? && r'.state.Closed? && a.CloseFinalized?)
  }

  /** Identity never changes, a sealed row keeps its lifetime, a written deadline never decreases. */
  predicate RowKept(r: Episode, r': Episode) {
    && r'.area == r.area && r'.start == r.start
    && (!r.Open() ==> r'.minimumEnd == r.minimumEnd && r'.lastActivity == r.lastActivity
                      && r'.lastEvent == r.lastEvent && r'.eventCount == r.eventCount)
    && (r.minimumEnd.Some? ==> r'.minimumEnd.Some? && r.minimumEnd.value <= r'.minimumEnd.value)
  }

  ghost predicate RowsMove(c: Core, a: Action, db': Db) {
    && |c.db.episodes| <= |db'.episodes|
    && forall id | 0 <= id < |c.db.episodes| ::
         RowKept(c.db.episodes[id], db'.episodes[id])
         && StateMove(c, a, c.db.episodes[id], db'.episodes[id])
  }

  predicate SameObservation(e: Event, e': Event) {
    && e'.device == e.device && e'.area == e.area && e'.timestamp == e.timestamp
    && e'.eventType == e.eventType && e'.state == e.state
    && e'.decision.Some? == e.decision.Some?
    && (e.decision.Some? ==> e'.decision.value == e.decision.value.(attachment := e'.decision.value.attachment))
  }

  /** A canonical observation and its decision are immutable, a link is never changed, and a new
      link goes to an Episode that was open before the action or that the action created. */
  ghost predicate EventsMove(db: Db, db': Db) {
    && (forall k | k in db.events :: k in db'.events && SameObservation(db.events[k], db'.events[k])
          && (db.events[k].episode.Some? ==> db'.events[k].episode == db.events[k].episode))
    && (forall k | k in db'.events && db'.events[k].episode.Some? ::
          || (k in db.events && db.events[k].episode == db'.events[k].episode)
          || (db'.events[k].episode.value < |db.episodes| ==> db.episodes[db'.events[k].episode.value].Open()))
  }

  /** Evidence links are never changed; a finalizing Episode gains only recorder Evidence that
      names it, and a closed one gains none. */
  ghost predicate EvidenceMoves(db: Db, a: Action, db': Db) {
    && (forall v | v in db.evidence :: v in db'.evidence
          && (db.evidence[v].episode.Some? ==> db'.evidence[v].episode == db.evidence[v].episode))
    && (forall v | v in db'.evidence && db'.evidence[v].episode.Some? ::
          || (v in db.evidence && db.evidence[v].episode == db'.evidence[v].episode)
          || (var id := db'.evidence[v].episode.value;
              id < |db.episodes| &&
              (db.episodes[id].Open()
               || (db.episodes[id].state.Finalizing? && a.AddEvidence? && a.recorder
                   && a.evidenceId == v && a.evidence.episode == Some(id)))))
  }

  ghost predicate Moves(c: Core, a: Action, db': Db) {
    RowsMove(c, a, db') && EventsMove(c.db, db') && EvidenceMoves(c.db, a, db')
  }

  /** Changing one open row and one unlinked Event, within bounds, is a permitted move. */
  lemma OneRowMoves(c: Core, a: Action, k: Key, e: Event, id: EpisodeId, r: Episode)
    requires k in c.db.events && c.db.events[k].episode.None? && SameObservation(c.db.events[k], e)
    requires e.episode.None? || e.episode == Some(id)
    requires id < |c.db.episodes| && c.db.episodes[id].Open()
    requires RowKept(c.db.episodes[id], r) && StateMove(c, a, c.db.episodes[id], r)
    ensures Moves(c, a, c.db.(events := c.db.events[k := e], episodes := c.db.episodes[id := r]))
  {
    var db' := c.db.(events := c.db.events[k := e], episodes := c.db.episodes[id := r]);
    forall j | 0 <= j < |c.db.episodes|
      ensures RowKept(c.db.episodes[j], db'.episodes[j]) && StateMove(c, a, c.db.episodes[j], db'.episodes[j])
    {
    }
    assert EventsMove(c.db, db');
    assert EvidenceMoves(c.db, a, db');
  }

  lemma JoinRowKept(r: Episode, timestamp: Time, at: Time, window: int, n: nat)
    requires r.Open() && (n >= 4 ==> r.state.Quiescent?)
    ensures RowKept(r, JoinRow(r, timestamp, at, window, n))
    ensures JoinRow(r, timestamp, at, window, n).state == if n >= 4 then Active else r.state
  {
  }

  lemma JoinMoves(c: Core, a: Action, k: Key, id: EpisodeId, at: Time, window: int, n: nat)
    requires Correlates(a) && CanLinkEvent(c.db, k, id) && n <= |JoinProgram(c.db, k, id, at, window)|
    ensures Moves(c, a, RunTo(c.db, JoinProgram(c.db, k, id, at, window), n))
  {
    JoinPrefix(c.db, k, id, at, window, n);
    var e := c.db.events[k];
    JoinRowKept(c.db.episodes[id], e.timestamp, at, window, n);
    OneRowMoves(c, a, k, if n == 0 then e else e.(episode := Some(id)), id,
                JoinRow(c.db.episodes[id], e.timestamp, at, window, n));
    assert n == 0 ==> c.db.events[k := e] == c.db.events;
  }

  lemma AppendMoves(c: Core, a: Action, k: Key, e: Event, r: Episode)
    requires k in c.db.events && c.db.events[k].episode.None? && SameObservation(c.db.events[k], e)
    requires e.episode.None? || e.episode == Some(|c.db.episodes|)
    ensures Moves(c, a, c.db.(events := c.db.events[k := e], episodes := c.db.episodes + [r]))
  {
    var db' := c.db.(events := c.db.events[k := e], episodes := c.db.episodes + [r]);
    assert forall j | 0 <= j < |c.db.episodes| :: db'.episodes[j] == c.db.episodes[j];
    assert EventsMove(c.db, db');
    assert EvidenceMoves(c.db, a, db');
  }

  lemma CreateMoves(c: Core, a: Action, k: Key, at: Time, window: int, n: nat)
    requires k in c.db.events && c.db.events[k].episode.None? && n <= |CreateProgram(c.db, k, at, window)|
    ensures Moves(c, a, RunTo(c.db, CreateProgram(c.db, k, at, window), n))
  {
    CreatePrefix(c.db, k, at, window, n);
    var e := c.db.events[k];
    if n == 0 {
      UnchangedMoves(c, a);
    } else {
      AppendMoves(c, a, k, if n == 1 then e else e.(episode := Some(|c.db.episodes|)),
                  CreatedRow(NewEpisode(e, at, window), n));
      assert n == 1 ==> c.db.events[k := e] == c.db.events;
    }
  }

  lemma UnchangedMoves(c: Core, a: Action)
    ensures Moves(c, a, c.db)
  {
  }

  lemma AttachMoves(c: Core, a: Action, k: Key, at: Time, recovery: bool, n: nat)
    requires k in c.db.events && c.db.events[k].episode.None? && n <= |AttachProgram(c, k, at, recovery)|
    ensures Moves(c, a, RunTo(c.db, AttachProgram(c, k, at, recovery), n))
  {
    AttachPrefix(c, k, at, recovery, n);
    var e := c.db.events[k];
    var target := FindOpenEpisode(c.db, e.area, at, c.timeout, c.grace, recovery);
    if n == 0 {
      UnchangedMoves(c, a);
    } else if target.None? {
      assert EventsMove(c.db, c.db.(events := c.db.events[k := AttachedEvent(e, NoOpenEpisode)]));
    } else {
      var linked := e.(episode := target);
      OneRowMoves(c, a, k, if n == 1 then linked else AttachedEvent(linked, Attached),
                  target.value, CountedRow(c.db.episodes[target.value]));
    }
  }

  lemma InactiveMoves(c: Core, a: Action, k: Key, n: nat)
    requires k in c.db.events && c.db.events[k].episode.None? && n <= |InactiveProgram(c.db, k)|
    ensures Moves(c, a, RunTo(c.db, InactiveProgram(c.db, k), n))
  {
    InactivePrefix(c.db, k, n);
    if n == 0 {
      UnchangedMoves(c, a);
    } else {
      var e := c.db.events[k];
      var id := InactiveTarget(c.db, k).value;
      var r := WithTimes(c.db.episodes[id], e.timestamp, None);
      OneRowMoves(c, a, k, if n == 1 then e else e.(episode := Some(id)), id, if n == 1 then r else CountedRow(r));
      assert n == 1 ==> c.db.events[k := e] == c.db.events;
    }
  }

  /** Joining the Event's own Episode once more, or leaving a new one empty, is a permitted move. */
  lemma HeldMoves(c: Core, a: Action, k: Key, at: Time, window: int, recovery: bool, n: nat)
    requires Correlates(a) && k in c.db.events && c.db.events[k].episode.Some? && c.db.events[k].Drives()
    requires n <= |DriveProgram(c, k, at, window, recovery)|
    ensures Moves(c, a, RunTo(c.db, DriveProgram(c, k, at, window, recovery), n))
  {
    HeldDrivePrefix(c, k, at, window, recovery, n);
    var e, target := c.db.events[k], Target(c, k, at, recovery);
    UnchangedMoves(c, a);
    if n > 0 && target.None? {
      RowAddedMoves(c, a, NewEpisode(e, at, window));
    } else if n > 0 {
      JoinRowKept(c.db.episodes[target.value], e.timestamp, at, window, n);
      RowChangedMoves(c, a, target.value, RejoinedRow(c.db.episodes[target.value], e.timestamp, at, window, n));
    }
  }

  lemma RowAddedMoves(c: Core, a: Action, r: Episode)
    ensures Moves(c, a, c.db.(episodes := c.db.episodes + [r]))
  {
    var db' := c.db.(episodes := c.db.episodes + [r]);
    assert forall j | 0 <= j < |c.db.episodes| :: db'.episodes[j] == c.db.episodes[j];
  }

  lemma RowChangedMoves(c: Core, a: Action, id: EpisodeId, r: Episode)
    requires id < |c.db.episodes| && c.db.episodes[id].Open()
    requires RowKept(c.db.episodes[id], r) && StateMove(c, a, c.db.episodes[id], r)
    ensures Moves(c, a, c.db.(episodes := c.db.episodes[id := r]))
  {
  }

  lemma HeldAttachMoves(c: Core, a: Action, k: Key, at: Time, recovery: bool, n: nat)
    requires k in c.db.events && c.db.events[k].episode.Some? && n <= |AttachProgram(c, k, at, recovery)|
    ensures Moves(c, a, RunTo(c.db, AttachProgram(c, k, at, recovery), n))
  {
    HeldAttachPrefix(c, k, at, recovery, n);
    UnchangedMoves(c, a);
    EventCommitMoves(c, a, k, AttachedEvent(c.db.events[k], NoOpenEpisode));
    EventCommitMoves(c, a, k, AttachedEvent(c.db.events[k], Attached));
  }

  lemma SettleMoves(c: Core, a: Action, k: Key, at: Time, window: int, recovery: bool, n: nat)
    requires Correlates(a) && k in c.db.events && Correlatable(c.db.events[k])
    requires n <= |SettleProgram(c, k, at, window, recovery)|
    ensures Moves(c, a, RunTo(c.db, SettleProgram(c, k, at, window, recovery), n))
  {
    var e := c.db.events[k];
    if e.area == NO_AREA {
    } else if e.episode.Some? {
      if e.Drives() {
        HeldMoves(c, a, k, at, window, recovery, n);
      } else if e.decision.Some? && e.decision.value.classFiltered {
        HeldAttachMoves(c, a, k, at, recovery, n);
      }
    } else if e.state.InactiveEvent? {
      InactiveMoves(c, a, k, n);
    } else if e.Drives() {
      var target := Target(c, k, at, recovery);
      if target.Some? {
        JoinMoves(c, a, k, target.value, at, window, n);
      } else {
        CreateMoves(c, a, k, at, window, n);
      }
    } else if e.decision.Some? && e.decision.value.classFiltered {
      AttachMoves(c, a, k, at, recovery, n);
    }
  }

  /** Linking Receipts first changes nothing that matters here. */
  lemma MovesAfterReceipts(c: Core, a: Action, mid: Core, db': Db)
    requires ReceiptsOnly(c.db, mid.db) && mid == c.(db := mid.db) && Moves(mid, a, db')
    ensures Moves(c, a, db')
  {
  }

  /** Placing Evidence on a row that accepts it is a permitted move. */
  lemma EvidencePlaced(c: Core, a: Action, v: EvidenceId, e: Evidence)
    requires v in c.db.evidence ==> c.db.evidence[v].episode.None?
    requires e.episode.Some? ==> e.episode.value < |c.db.episodes|
    requires e.episode.Some? && !c.db.episodes[e.episode.value].Open() ==>
               c.db.episodes[e.episode.value].state.Finalizing? && a.AddEvidence? && a.recorder
               && a.evidenceId == v && a.evidence.episode == e.episode
    ensures Moves(c, a, c.db.(evidence := c.db.evidence[v := e]))
    ensures e.episode.Some? ==>
              var id := e.episode.value;
              var r := c.db.episodes[id].(evidenceCount := c.db.episodes[id].evidenceCount + 1);
              Moves(c, a, c.db.(evidence := c.db.evidence[v := e], episodes := c.db.episodes[id := r]))
  {
    var db' := c.db.(evidence := c.db.evidence[v := e]);
    assert EvidenceMoves(c.db, a, db');
    assert EventsMove(c.db, db');
  }

  lemma LinkEvidenceMoves(c: Core, a: Action, commit: Commit)
    requires commit.LinkEvidence? && CanLinkEvidence(c.db, commit.evidenceId, commit.id, commit.allowFinalizing)
    requires commit.allowFinalizing ==>
               a.AddEvidence? && a.recorder && a.evidenceId == commit.evidenceId && a.evidence.episode == Some(commit.id)
    ensures Moves(c, a, Apply(c.db, commit))
  {
    EvidencePlaced(c, a, commit.evidenceId, c.db.evidence[commit.evidenceId].(episode := Some(commit.id)));
  }

  lemma CreateEvidenceMoves(c: Core, a: Action, v: EvidenceId, e: Evidence, link: seq<Commit>, n: nat)
    requires v !in c.db.evidence && e.episode.None? && n <= 1 + |link|
    requires link == [] || (|link| == 1 && link[0].LinkEvidence? && link[0].evidenceId == v
                            && AcceptsEvidence(c.db, link[0].id, link[0].allowFinalizing))
    requires link != [] && link[0].allowFinalizing ==>
               a.AddEvidence? && a.recorder && a.evidenceId == v && a.evidence.episode == Some(link[0].id)
    ensures Moves(c, a, RunTo(c.db, [CreateEvidence(v, e)] + link, n))
  {
    var p := [CreateEvidence(v, e)] + link;
    RunUpToTwo(c.db, p, n);
    if n == 0 {
      UnchangedMoves(c, a);
    } else if n == 1 {
      EvidencePlaced(c, a, v, e);
    } else {
      assert p[1] == link[0];
      CreateLinkMoves(c, a, v, e, link[0]);
    }
  }

  lemma CreateLinkMoves(c: Core, a: Action, v: EvidenceId, e: Evidence, link: Commit)
    requires v !in c.db.evidence && e.episode.None? && link.LinkEvidence? && link.evidenceId == v
    requires AcceptsEvidence(c.db, link.id, link.allowFinalizing)
    requires link.allowFinalizing ==>
               a.AddEvidence? && a.recorder && a.evidenceId == v && a.evidence.episode == Some(link.id)
    ensures Moves(c, a, Apply(Apply(c.db, CreateEvidence(v, e)), link))
  {
    var e' := e.(episode := Some(link.id));
    EvidencePlaced(c, a, v, e');
    assert c.db.evidence[v := e][v := e'] == c.db.evidence[v := e'];
  }

  lemma EvidenceActionMoves(c: Core, a: Action, n: nat)
    requires a.AddEvidence? ==> n <= |EvidenceProgram(c, a.evidenceId, a.evidence, a.recorder, a.now)|
    requires a.PlaceEvidence? ==> n <= |OrphanEvidenceProgram(c, a.evidenceId, a.now)|
    ensures a.AddEvidence? ==> Moves(c, a, RunTo(c.db, EvidenceProgram(c, a.evidenceId, a.evidence, a.recorder, a.now), n))
    ensures a.PlaceEvidence? ==> Moves(c, a, RunTo(c.db, OrphanEvidenceProgram(c, a.evidenceId, a.now), n))
  {
    if a.AddEvidence? && a.evidenceId !in c.db.evidence {
      var p := EvidenceProgram(c, a.evidenceId, a.evidence, a.recorder, a.now);
      assert p == [p[0]] + p[1..];
      CreateEvidenceMoves(c, a, a.evidenceId, a.evidence.(episode := None), p[1..], n);
    } else if a.AddEvidence? || a.PlaceEvidence? {
      var p := if a.AddEvidence? then EvidenceProgram(c, a.evidenceId, a.evidence, a.recorder, a.now)
               else OrphanEvidenceProgram(c, a.evidenceId, a.now);
      assert RunTo(c.db, p, 0) == c.db;
      UnchangedMoves(c, a);
      if n == 1 {
        LinkEvidenceMoves(c, a, p[0]);
      }
    }
  }

  lemma EventCommitMoves(c: Core, a: Action, k: Key, e: Event)
    requires k in c.db.events ==> SameObservation(c.db.events[k], e) && e.episode == c.db.events[k].episode
    requires k !in c.db.events ==> e.episode.None?
    ensures Moves(c, a, c.db.(events := c.db.events[k := e]))
  {
    var db' := c.db.(events := c.db.events[k := e]);
    assert EventsMove(c.db, db');
    assert EvidenceMoves(c.db, a, db');
  }

  lemma TimerMoves(c: Core, a: Action, now: Time)
    requires TimerOf(a) == Some(now)
    ensures Moves(c, a, Apply(c.db, TimeOut(now, c.timeout, c.grace)))
  {
    var db' := Apply(c.db, TimeOut(now, c.timeout, c.grace));
    assert EventsMove(c.db, db');
    assert EvidenceMoves(c.db, a, db');
  }

  lemma CloseMoves(c: Core, a: Action)
    requires a.CloseFinalized?
    ensures Moves(c, a, Apply(c.db, MarkClosed(a.id, a.at)))
  {
    var db' := Apply(c.db, MarkClosed(a.id, a.at));
    assert EventsMove(c.db, db');
    assert EvidenceMoves(c.db, a, db');
  }

  lemma OtherActionMoves(s: Sys, a: Action, n: nat)
    requires Enabled(s, a) && !Correlates(a) && !a.AddEvidence? && !a.PlaceEvidence? && n <= |Program(s, a)|
    ensures Moves(s.core, a, RunTo(s.core.db, Program(s, a), n))
  {
    var p := Program(s, a);
    assert RunTo(s.core.db, p, 0) == s.core.db;
    UnchangedMoves(s.core, a);
    if n == 1 {
      match p[0]
      case InsertEvent(k, e) => EventCommitMoves(s.core, a, k, e);
      case LinkReceipt(k, received) => EventCommitMoves(s.core, a, k, LinkedReceipt(s.core.db.events[k], received));
      case Backfill(k) => EventCommitMoves(s.core, a, k, Backfilled(s.core.db.events[k]));
      case TimeOut(now, _, _) => TimerMoves(s.core, a, now);
      case MarkClosed(_, _) => CloseMoves(s.core, a);
      case SaveGrace(_) =>
    }
  }

  lemma CorrelationMoves(c: Core, a: Action, x: Correlation, m: nat)
    requires Correlates(a) && ValidCorrelation(c, x) && m <= |CorrelationProgram(x)|
    requires x.runs ==> Correlatable(x.core.db.events[x.key])
    ensures Moves(c, a, RunTo(x.core.db, CorrelationProgram(x), m))
  {
    if x.runs {
      SettleMoves(x.core, a, x.key, x.at, x.window, x.recovery, m);
    } else {
      UnchangedMoves(x.core, a);
    }
    MovesAfterReceipts(c, a, x.core, RunTo(x.core.db, CorrelationProgram(x), m));
  }

  lemma CorrelatingMoves(s: Sys, a: Action, n: nat)
    requires Sound(s) && Enabled(s, a) && Correlates(a) && n <= |Program(s, a)|
    ensures Moves(s.core, a, RunTo(s.core.db, Program(s, a), n))
  {
    var db', m, early := CorrelatingPrefix(s, a, n);
    if early {
      UnchangedMoves(s.core.(db := db'), a);
      MovesAfterReceipts(s.core, a, s.core.(db := db'), db');
    } else {
      RunsCorrelatable(s, a);
      CorrelationMoves(s.core, a, CorrelationOf(s, a), m);
    }
  }

  /** Any part of any action, cut by a crash or not, makes only the permitted moves. */
  lemma ActionMoves(s: Sys, a: Action, n: nat)
    requires Sound(s) && Enabled(s, a) && n <= |Program(s, a)|
    ensures Moves(s.core, a, RunTo(s.core.db, Program(s, a), n))
  {
    if Correlates(a) {
      CorrelatingMoves(s, a, n);
    } else if a.AddEvidence? || a.PlaceEvidence? {
      EvidenceActionMoves(s.core, a, n);
    } else {
      OtherActionMoves(s, a, n);
    }
  }

  lemma StepMoves(s: Sys, step: Step)
    requires Sound(s) && StepEnabled(s, step)
    ensures Moves(s.core, step.action, Take(s, step).core.db)
  {
    if step.Do? {
      NextCommitsProgram(s, step.action);
      ActionMoves(s, step.action, |Program(s, step.action)|);
    } else {
      ActionMoves(s, step.action, step.committed);
    }
  }

  /** What any later state keeps of an earlier one. */
  ghost predicate Keeps(db: Db, db': Db) {
    && |db.episodes| <= |db'.episodes|
    && (forall id | 0 <= id < |db.episodes| ::
          var r, r' := db.episodes[id], db'.episodes[id];
          && RowKept(r, r')
          && (r.state.Finalizing? ==> r'.state.Finalizing? || r'.state.Closed?)
          && (r.Finished() ==> r'.state == r.state))
    && (forall k | k in db.events :: k in db'.events && SameObservation(db.events[k], db'.events[k])
          && (db.events[k].episode.Some? ==> db'.events[k].episode == db.events[k].episode))
    && (forall id | 0 <= id < |db.episodes| && !db.episodes[id].Open() ::
          Members(db'.events, id) == Members(db.events, id))
    && (forall v | v in db.evidence && db.evidence[v].episode.Some? ::
          v in db'.evidence && db'.evidence[v].episode == db.evidence[v].episode)
    && (forall id | 0 <= id < |db.episodes| && db.episodes[id].Finished() ::
          Attachments(db'.evidence, id) == Attachments(db.evidence, id))
  }

  lemma MovesKeep(c: Core, a: Action, db': Db)
    requires Moves(c, a, db')
    ensures Keeps(c.db, db')
  {
  }

  lemma KeepsTransitive(a: Db, b: Db, c: Db)
    requires Keeps(a, b) && Keeps(b, c)
    ensures Keeps(a, c)
  {
  }

  /** Safety over whole runs with any number of crashes: a sealed Episode stays sealed with the
      same Events and the same deadline, a closed one also with the same Evidence, and no deadline
      decreases and no link changes, ever. */
  lemma {:induction false} RunKeeps(s: Sys, steps: seq<Step>)
    requires Sound(s) && Behaves(s, steps)
    ensures Keeps(s.core.db, After(s, steps).core.db)
    decreases |steps|
  {
    if steps != [] {
      var s' := Take(s, steps[0]);
      StepMoves(s, steps[0]);
      MovesKeep(s.core, steps[0].action, s'.core.db);
      SoundStep(s, steps[0]);
      RunKeeps(s', steps[1..]);
      KeepsTransitive(s.core.db, s'.core.db, After(s', steps[1..]).core.db);
    }
  }

  /** A timer pass decides every row from its deadline alone: it seals exactly the open rows whose
      settling horizon is strictly past and rests exactly the active ones in between. */
  lemma TickDecides(c: Core, now: Time, id: EpisodeId)
    requires id < |c.db.episodes| && c.db.episodes[id].Open()
    ensures var r, r' := c.db.episodes[id], Tick(c, now).db.episodes[id];
            && (r'.state.Finalizing? <==> r.Deadline(c.timeout) + c.grace < now)
            && (r'.state.Active? <==>
                  r.state.Active? && now < r.Deadline(c.timeout) && now <= r.Deadline(c.timeout) + c.grace)
            && r' == r.(state := r'.state, endTime := r'.endTime)
  {
  }

  /** A late pass leaves what an earlier pass followed by it leaves. */
  lemma TicksCompose(c: Core, t1: Time, t2: Time)
    requires t1 <= t2
    ensures Tick(Tick(c, t1), t2) == Tick(c, t2)
  {
    var one, two := Tick(c, t1), Tick(Tick(c, t1), t2);
    forall id | 0 <= id < |c.db.episodes|
      ensures two.db.episodes[id] == Tick(c, t2).db.episodes[id]
    {
    }
    assert two.db.episodes == Tick(c, t2).db.episodes;
    if !c.defer {
      assert AwaitingClose(one.db.episodes) <= AwaitingClose(two.db.episodes);
      assert c.deadlines - AwaitingClose(one.db.episodes) - AwaitingClose(two.db.episodes)
             == c.deadlines - AwaitingClose(two.db.episodes);
    }
  }
}
