/** What a database looks like after any prefix of each correlation program. */
module Footprints {
  import opened Domain
  import opened Store
  import opened Lifecycle
  import opened Protocol

  function Linked(db: Db, k: Key, id: EpisodeId): map<Key, Event>
    requires k in db.events
  {
    db.events[k := db.events[k].(episode := Some(id))]
  }

  /** The joined row after `n` transactions. */
  function JoinRow(r: Episode, timestamp: Time, at: Time, window: int, n: nat): Episode {
    var counted := if n >= 1 then r.(eventCount := r.eventCount + 1) else r;
    var timed := if n >= 2 then WithTimes(counted, timestamp, Some(at)) else counted;
    var extended := if n >= 3 then WithMinimumEnd(timed, at + window) else timed;
    if n >= 4 then extended.(state := Active) else extended
  }

  lemma JoinPrefix(db: Db, k: Key, id: EpisodeId, at: Time, window: int, n: nat)
    requires CanLinkEvent(db, k, id) && n <= |JoinProgram(db, k, id, at, window)|
    ensures RunTo(db, JoinProgram(db, k, id, at, window), n)
            == db.(events := if n == 0 then db.events else Linked(db, k, id),
                   episodes := db.episodes[id := JoinRow(db.episodes[id], db.events[k].timestamp, at, window, n)])
  {
    if n == 0 {
      assert db.episodes == db.episodes[id := db.episodes[id]];
    } else {
      JoinPrefix(db, k, id, at, window, n - 1);
    }
  }

  function CreatedRow(e: Episode, n: nat): Episode {
    if n <= 1 then e else e.(eventCount := 1)
  }

  lemma CreatePrefix(db: Db, k: Key, at: Time, window: int, n: nat)
    requires k in db.events && db.events[k].episode.None? && n <= |CreateProgram(db, k, at, window)|
    ensures RunTo(db, CreateProgram(db, k, at, window), n)
            == if n == 0 then db
               else db.(events := if n == 1 then db.events else Linked(db, k, |db.episodes|),
                        episodes := db.episodes + [CreatedRow(NewEpisode(db.events[k], at, window), n)])
  {
    if n != 0 {
      CreatePrefix(db, k, at, window, n - 1);
      var id := |db.episodes|;
      var before := RunTo(db, CreateProgram(db, k, at, window), n - 1);
      var e := NewEpisode(db.events[k], at, window);
      if n == 2 {
        assert (db.episodes + [e])[id := CreatedRow(e, 2)] == db.episodes + [CreatedRow(e, 2)];
      } else if n > 2 {
        assert (db.episodes + [CreatedRow(e, 2)])[id := CreatedRow(e, 2)] == db.episodes + [CreatedRow(e, 2)];
      }
    }
  }

  function AttachedEvent(e: Event, attachment: Attachment): Event {
    if e.decision.Some? then e.(decision := Some(e.decision.value.(attachment := Some(attachment)))) else e
  }

  function CountedRow(r: Episode): Episode {
    r.(eventCount := r.eventCount + 1)
  }

  lemma AttachPrefix(c: Core, k: Key, at: Time, recovery: bool, n: nat)
    requires k in c.db.events && c.db.events[k].episode.None? && n <= |AttachProgram(c, k, at, recovery)|
    ensures var db := c.db;
            var target := FindOpenEpisode(db, db.events[k].area, at, c.timeout, c.grace, recovery);
            RunTo(db, AttachProgram(c, k, at, recovery), n)
            == if n == 0 then db
               else if target.None? then db.(events := db.events[k := AttachedEvent(db.events[k], NoOpenEpisode)])
               else db.(events := if n == 1 then Linked(db, k, target.value)
                                  else db.events[k := AttachedEvent(Linked(db, k, target.value)[k], Attached)],
                        episodes := db.episodes[target.value := CountedRow(db.episodes[target.value])])
  {
    if n != 0 {
      AttachPrefix(c, k, at, recovery, n - 1);
    }
  }

  lemma InactivePrefix(db: Db, k: Key, n: nat)
    requires k in db.events && db.events[k].episode.None? && n <= |InactiveProgram(db, k)|
    ensures var target := InactiveTarget(db, k);
            RunTo(db, InactiveProgram(db, k), n)
            == if n == 0 then db
               else var r := WithTimes(db.episodes[target.value], db.events[k].timestamp, None);
                    db.(events := if n == 1 then db.events else Linked(db, k, target.value),
                        episodes := db.episodes[target.value := if n == 1 then r else CountedRow(r)])
  {
    if n != 0 {
      InactivePrefix(db, k, n - 1);
    }
  }

  /** What correlation meets: an unlinked Event, or an active one a redelivery has linked meanwhile. */
  predicate Correlatable(e: Event) {
    e.episode.None? || e.state.ActiveEvent?
  }

  // ----- an Event that already has an Episode ------------------------------------------------------

  /** The row of the Event's own Episode when it is joined once more. */
  function RejoinedRow(r: Episode, timestamp: Time, at: Time, window: int, n: nat): Episode {
    JoinRow(r, timestamp, at, window, n).(eventCount := r.eventCount)
  }

  lemma RejoinPrefix(db: Db, k: Key, id: EpisodeId, at: Time, window: int, n: nat)
    requires k in db.events && db.events[k].episode == Some(id) && id < |db.episodes|
    requires n <= |JoinProgram(db, k, id, at, window)|
    ensures RunTo(db, JoinProgram(db, k, id, at, window), n)
            == db.(episodes := db.episodes[id := RejoinedRow(db.episodes[id], db.events[k].timestamp, at, window, n)])
  {
    if n == 0 {
      assert db.episodes == db.episodes[id := db.episodes[id]];
    } else {
      RejoinPrefix(db, k, id, at, window, n - 1);
    }
  }

  /** Driving an Event that has an Episode joins that Episode once more, or raises, which may leave a new
      Episode empty. */
  lemma HeldDrivePrefix(c: Core, k: Key, at: Time, window: int, recovery: bool, n: nat)
    requires k in c.db.events && c.db.events[k].episode.Some? && n <= |DriveProgram(c, k, at, window, recovery)|
    ensures var db, target := c.db, Target(c, k, at, recovery);
            RunTo(db, DriveProgram(c, k, at, window, recovery), n)
            == if n == 0 then db
               else if target.None? then db.(episodes := db.episodes + [NewEpisode(db.events[k], at, window)])
               else db.(episodes := db.episodes[target.value :=
                          RejoinedRow(db.episodes[target.value], db.events[k].timestamp, at, window, n)])
    ensures var target := Target(c, k, at, recovery);
            n > 0 && target.Some? ==> target == c.db.events[k].episode
  {
    var target := Target(c, k, at, recovery);
    if HeldElsewhere(c.db.events[k], target) {
      assert RunTo(c.db, DriveProgram(c, k, at, window, recovery), 0) == c.db;
    } else {
      RejoinPrefix(c.db, k, target.value, at, window, n);
    }
  }

  /** Attaching such an Event changes at most its recorded attachment. */
  lemma HeldAttachPrefix(c: Core, k: Key, at: Time, recovery: bool, n: nat)
    requires k in c.db.events && c.db.events[k].episode.Some? && n <= |AttachProgram(c, k, at, recovery)|
    ensures var db, e := c.db, c.db.events[k];
            var db' := RunTo(db, AttachProgram(c, k, at, recovery), n);
            || db' == db
            || db' == db.(events := db.events[k := AttachedEvent(e, NoOpenEpisode)])
            || db' == db.(events := db.events[k := AttachedEvent(e, Attached)])
  {
    var p := AttachProgram(c, k, at, recovery);
    assert RunTo(c.db, p, 0) == c.db;
    if n == 2 {
      assert RunTo(c.db, p, 1) == c.db;
    }
  }

  /** Only Evidence rows and Evidence counters differ. */
  ghost predicate EvidenceOnly(db: Db, db': Db) {
    && db' == db.(evidence := db'.evidence, episodes := db'.episodes) && |db'.episodes| == |db.episodes|
    && forall id | 0 <= id < |db.episodes| ::
         db'.episodes[id] == db.episodes[id].(evidenceCount := db'.episodes[id].evidenceCount)
  }

  lemma EvidencePrefix(db: Db, p: seq<Commit>, n: nat)
    requires n <= |p| && forall commit | commit in p :: commit.CreateEvidence? || commit.LinkEvidence?
    ensures EvidenceOnly(db, RunTo(db, p, n))
  {
    if n != 0 {
      EvidencePrefix(db, p, n - 1);
      assert p[n - 1] in p;
    }
  }

  // ----- splitting an action into receipt linking and correlation ---------------------------------

  predicate Correlates(a: Action) {
    a.SettleFlight? || a.RedeliverKnown? || a.RecoverOne?
  }

  /** The correlation an action performs: the core it starts from, and its arguments.  `runs` is
      false when the action stops after linking Receipts. */
  datatype Correlation = Correlation(core: Core, key: Key, at: Time, window: int, recovery: bool, runs: bool)

  ghost predicate ValidCorrelation(c: Core, x: Correlation) {
    && ReceiptsOnly(c.db, x.core.db) && x.core == c.(db := x.core.db)
    && (x.runs ==> x.key in x.core.db.events)
    && (x.runs && x.recovery ==> x.core.db.events[x.key].Pending())
  }

  ghost function CorrelationOf(s: Sys, a: Action): (x: Correlation)
    requires Enabled(s, a) && Correlates(a)
    ensures ValidCorrelation(s.core, x)
  {
    match a
    case SettleFlight(k) => Correlation(s.core, k, FlightOf(s, k).at, FlightOf(s, k).window, false, true)
    case RecoverOne(k, fallback) => RecoveryCorrelation(s.core, k, fallback)
    case RedeliverKnown(d, fallback) =>
      if RedeliverRecovers(s.core.db, d)
      then RecoveryCorrelation(AfterReceipt(s.core, d), d.key, fallback)
      else Correlation(AfterReceipt(s.core, d), d.key, 0, 0, true, false)
  }

  ghost function RecoveryCorrelation(c: Core, k: Key, fallback: int): (x: Correlation)
    requires k in c.db.events
    ensures ValidCorrelation(c, x) && x.recovery && x.key == k
    ensures x.runs <==> c.db.events[k].Pending()
    ensures x.runs ==> x.core.db.events[k].RecoveryIngress() == Some(x.at)
  {
    if c.db.events[k].Pending() then
      var c' := AfterBackfill(c, k);
      var e := c'.db.events[k];
      Correlation(c', k, e.RecoveryIngress().value, RecoveryWindow(c', e, fallback), true, true)
    else Correlation(c, k, 0, 0, true, false)
  }

  ghost function CorrelationProgram(x: Correlation): seq<Commit>
    requires x.runs ==> x.key in x.core.db.events
  {
    if x.runs then SettleProgram(x.core, x.key, x.at, x.window, x.recovery) else []
  }

  /** The completed action leaves the core its correlation leaves. */
  lemma NextSettles(s: Sys, a: Action)
    requires Enabled(s, a) && Correlates(a)
    ensures var x := CorrelationOf(s, a);
            Next(s, a).core == if x.runs then Settle(x.core, x.key, x.at, x.window, x.recovery) else x.core
  {
  }

  lemma RecoverPrefix(c: Core, k: Key, fallback: int, n: nat) returns (db': Db, m: nat, early: bool)
    requires k in c.db.events && n <= |RecoverProgram(c, k, fallback)|
    ensures db' == RunTo(c.db, RecoverProgram(c, k, fallback), n)
    ensures early ==> db' == c.db
    ensures !early ==> var x := RecoveryCorrelation(c, k, fallback);
                       m <= |CorrelationProgram(x)| && db' == RunTo(x.core.db, CorrelationProgram(x), m)
  {
    var x := RecoveryCorrelation(c, k, fallback);
    db' := RunTo(c.db, RecoverProgram(c, k, fallback), n);
    early := n == 0;
    m := if early then 0 else n - 1;
    if c.db.events[k].Pending() {
      var p := [Backfill(k)];
      var q := CorrelationProgram(x);
      assert RunTo(c.db, p, 0) == c.db;
      if !early {
        RunToSuffix(c.db, p, q, m, n);
      }
    }
  }

  /** The part after the Receipts, which is there only when the redelivery resumes its correlation. */
  lemma RedeliverTail(c: Core, d: Delivery, fallback: int, n: nat) returns (db': Db, m: nat, early: bool)
    requires d.key in c.db.events && 0 < n <= |ResumeProgram(c, d, fallback)|
    ensures db' == RunTo(Run(c.db, ReceiptProgram(c.db, d)), ResumeProgram(c, d, fallback), n)
    ensures early ==> db' == AfterReceipt(c, d).db
    ensures RedeliverRecovers(c.db, d)
    ensures !early ==> var x := RecoveryCorrelation(AfterReceipt(c, d), d.key, fallback);
                       m <= |CorrelationProgram(x)| && db' == RunTo(x.core.db, CorrelationProgram(x), m)
  {
    db', m, early := RecoverPrefix(AfterReceipt(c, d), d.key, fallback, n);
  }

  lemma RedeliverPrefix(c: Core, d: Delivery, fallback: int, n: nat) returns (db': Db, m: nat, early: bool)
    requires d.key in c.db.events && n <= |RedeliverProgram(c, d, fallback)|
    ensures db' == RunTo(c.db, RedeliverProgram(c, d, fallback), n)
    ensures early ==> ReceiptsOnly(c.db, db')
    ensures !early ==> RedeliverRecovers(c.db, d)
                       && var x := RecoveryCorrelation(AfterReceipt(c, d), d.key, fallback);
                          m <= |CorrelationProgram(x)| && db' == RunTo(x.core.db, CorrelationProgram(x), m)
  {
    var p := ReceiptProgram(c.db, d);
    if n <= |p| {
      RunToPrefix(c.db, p, ResumeProgram(c, d, fallback), n, n);
      ReceiptProgramEffect(c.db, d, n);
      db', m, early := RunTo(c.db, p, n), 0, true;
    } else {
      RunToSuffix(c.db, p, ResumeProgram(c, d, fallback), n - |p|, n);
      db', m, early := RedeliverTail(c, d, fallback, n - |p|);
    }
  }

  /** Any prefix of a correlating action first links Receipts, then runs part of its correlation. */
  lemma CorrelatingPrefix(s: Sys, a: Action, n: nat) returns (db': Db, m: nat, early: bool)
    requires Enabled(s, a) && Correlates(a) && n <= |Program(s, a)|
    ensures db' == RunTo(s.core.db, Program(s, a), n)
    ensures early ==> if a.RedeliverKnown? then ReceiptsOnly(s.core.db, db') else db' == s.core.db
    ensures !early ==> var x := CorrelationOf(s, a);
                       m <= |CorrelationProgram(x)| && db' == RunTo(x.core.db, CorrelationProgram(x), m)
  {
    match a
    case SettleFlight(k) =>
      db', m, early := RunTo(s.core.db, Program(s, a), n), n, false;
    case RecoverOne(k, fallback) =>
      db', m, early := RecoverPrefix(s.core, k, fallback, n);
    case RedeliverKnown(d, fallback) =>
      db', m, early := RedeliverPrefix(s.core, d, fallback, n);
  }
}
