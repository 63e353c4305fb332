/** Redeliveries, duplicate or conflicting, have no effect beyond linking their Receipts, unless one resumes
    an Event that its first delivery is still about to correlate. */
module ExactlyOnce {
  import opened Domain
  import opened Store
  import opened Lifecycle
  import opened Protocol
  import opened Footprints
  import opened Overtaking
  import opened SteadyRuns
  import opened Erasure

  ghost predicate SameButReceipts(s: Sys, t: Sys) {
    && ReceiptsOnly(s.core.db, t.core.db) && t.core == s.core.(db := t.core.db)
    && t.phase == s.phase && t.flights == s.flights
  }

  lemma UpdateBlind(db: Db, t: Db, k: Key, e: Event, e': Event)
    requires ReceiptsOnly(db, t) && e' == e.(ingress := e'.ingress, unlinked := e'.unlinked)
    ensures ReceiptsOnly(db.(events := db.events[k := e]), t.(events := t.events[k := e']))
  {
  }

  lemma ApplyBlind(db: Db, t: Db, c: Commit)
    requires ReceiptsOnly(db, t)
    ensures ReceiptsOnly(Apply(db, c), Apply(t, c))
  {
    match c
    case InsertEvent(k, e) => UpdateBlind(db, t, k, e, e);
    case LinkReceipt(k, received) =>
      if k in db.events {
        UpdateBlind(db, t, k, LinkedReceipt(db.events[k], received), LinkedReceipt(t.events[k], received));
      }
    case Backfill(k) =>
      if k in db.events {
        UpdateBlind(db, t, k, Backfilled(db.events[k]), Backfilled(t.events[k]));
      }
    case LinkEvent(k, id) =>
      if CanLinkEvent(db, k, id) {
        UpdateBlind(db, t, k, db.events[k].(episode := Some(id)), t.events[k].(episode := Some(id)));
      }
    case RecordAttachment(k, attachment) =>
      if k in db.events && db.events[k].decision.Some? {
        UpdateBlind(db, t, k, AttachedEvent(db.events[k], attachment), AttachedEvent(t.events[k], attachment));
      }
    case _ => RowCommitBlind(db, t, c);
  }

  /** Transactions on rows and Evidence read and write no Event. */
  lemma RowCommitBlind(db: Db, t: Db, c: Commit)
    requires ReceiptsOnly(db, t)
    requires !c.InsertEvent? && !c.LinkReceipt? && !c.Backfill? && !c.LinkEvent? && !c.RecordAttachment?
    ensures ReceiptsOnly(Apply(db, c), Apply(t, c))
  {
    assert Apply(db, c).events == db.events && Apply(t, c).events == t.events;
    assert Apply(t, c) == Apply(db, c).(events := t.events);
  }

  lemma RunBlind(db: Db, t: Db, p: seq<Commit>, n: nat)
    requires ReceiptsOnly(db, t) && n <= |p|
    ensures ReceiptsOnly(RunTo(db, p, n), RunTo(t, p, n))
  {
    if n != 0 {
      RunBlind(db, t, p, n - 1);
      ApplyBlind(RunTo(db, p, n - 1), RunTo(t, p, n - 1), p[n - 1]);
    }
  }

  /** The preceding transition is decided by the observations alone. */
  lemma PrecedingBlind(db: Db, t: Db, k: Key)
    requires ReceiptsOnly(db, t) && k in db.events
    ensures FindPreceding(db.events, k) == FindPreceding(t.events, k)
  {
    forall j ensures Precedes(db.events, j, k) <==> Precedes(t.events, j, k) {
    }
    var x, y := FindPreceding(db.events, k), FindPreceding(t.events, k);
    assert x.Some? == y.Some?;
    if x.Some? {
      assert Precedes(t.events, x.value, k);
      assert LaterOrSame(t.events, y.value, x.value) && LaterOrSame(db.events, x.value, y.value);
    }
  }

  lemma InactiveTargetBlind(db: Db, t: Db, k: Key)
    requires ReceiptsOnly(db, t) && k in db.events
    ensures InactiveTarget(db, k) == InactiveTarget(t, k)
  {
    PrecedingBlind(db, t, k);
    var p := FindPreceding(db.events, k);
    assert p.Some? ==> t.events[p.value].episode == db.events[p.value].episode
                       && t.events[p.value].state == db.events[p.value].state;
  }

  lemma ProgramBlind(c: Core, t: Core, k: Key, at: Time, window: int)
    requires ReceiptsOnly(c.db, t.db) && t == c.(db := t.db) && k in c.db.events
    ensures SettleProgram(c, k, at, window, false) == SettleProgram(t, k, at, window, false)
    ensures Target(c, k, at, false) == Target(t, k, at, false)
  {
    DriveProgramBlind(c, t, k, at, window);
    AttachProgramBlind(c, t, k, at);
    InactiveTargetBlind(c.db, t.db, k);
  }

  lemma DriveProgramBlind(c: Core, t: Core, k: Key, at: Time, window: int)
    requires ReceiptsOnly(c.db, t.db) && t == c.(db := t.db) && k in c.db.events
    ensures Target(c, k, at, false) == Target(t, k, at, false)
    ensures DriveProgram(c, k, at, window, false) == DriveProgram(t, k, at, window, false)
  {
    QueriesReadRows(c.db, t.db, |c.db.episodes|, c.db.events[k].area, at, c.timeout, c.grace);
  }

  lemma AttachProgramBlind(c: Core, t: Core, k: Key, at: Time)
    requires ReceiptsOnly(c.db, t.db) && t == c.(db := t.db) && k in c.db.events
    ensures AttachProgram(c, k, at, false) == AttachProgram(t, k, at, false)
  {
    QueriesReadRows(c.db, t.db, |c.db.episodes|, c.db.events[k].area, at, c.timeout, c.grace);
  }

  lemma SettleBlind(c: Core, t: Core, k: Key, at: Time, window: int)
    requires ReceiptsOnly(c.db, t.db) && t == c.(db := t.db) && k in c.db.events
    ensures var c', t' := Settle(c, k, at, window, false), Settle(t, k, at, window, false);
            t' == c'.(db := t'.db) && ReceiptsOnly(c'.db, t'.db)
  {
    var p := SettleProgram(c, k, at, window, false);
    ProgramBlind(c, t, k, at, window);
    RunBlind(c.db, t.db, p, |p|);
    EventBlind(c.db, t.db, k);
    MemoryBlind(c, t, k, Target(c, k, at, false), at + window, Run(c.db, p), Run(t.db, p));
  }

  lemma EventBlind(db: Db, t: Db, k: Key)
    requires ReceiptsOnly(db, t) && k in db.events
    ensures k in t.events && t.episodes == db.episodes && t.events[k].Drives() == db.events[k].Drives()
    ensures t.events[k].area == db.events[k].area && t.events[k].episode == db.events[k].episode
  {
  }

  lemma MemoryBlind(c: Core, t: Core, k: Key, target: Option<EpisodeId>, end: Time, db: Db, db': Db)
    requires t == c.(db := t.db) && t.db.episodes == c.db.episodes && k in c.db.events && k in t.db.events
    requires t.db.events[k].Drives() == c.db.events[k].Drives() && t.db.events[k].area == c.db.events[k].area
    requires t.db.events[k].episode == c.db.events[k].episode
    requires target.Some? ==> target.value < |c.db.episodes|
    ensures WithDb(t, k, target, end, db') == WithDb(c, k, target, end, db).(db := db')
    ensures WithDb(c, k, target, end, db).db == db
  {
    MemorySame(c, t, target, end);
  }

  lemma EvidenceMatchBlind(c: Core, t: Core, v: Evidence, now: Time)
    requires ReceiptsOnly(c.db, t.db) && t == c.(db := t.db)
    ensures EvidenceMatch(c, v, now) == EvidenceMatch(t, v, now)
  {
    QueriesReadRows(c.db, t.db, |c.db.episodes|, v.area, v.timestamp, c.timeout, c.grace);
    QueriesReadRows(c.db, t.db, |c.db.episodes|, v.area, now, c.timeout, c.grace);
  }

  lemma EvidenceBlind(s: Sys, t: Sys, a: Action)
    requires SameButReceipts(s, t) && Enabled(s, a) && (a.AddEvidence? || a.PlaceEvidence?)
    ensures Enabled(t, a) && SameButReceipts(Next(s, a), Next(t, a))
  {
    if a.AddEvidence? {
      EvidenceMatchBlind(s.core, t.core, a.evidence.(episode := None), a.now);
    } else if a.evidenceId in s.core.db.evidence {
      EvidenceMatchBlind(s.core, t.core, s.core.db.evidence[a.evidenceId], a.now);
    }
    var p := Program(s, a);
    assert p == Program(t, a);
    RunBlind(s.core.db, t.core.db, p, |p|);
  }

  lemma SettleFlightBlind(s: Sys, t: Sys, k: Key)
    requires SameButReceipts(s, t) && Enabled(s, SettleFlight(k))
    ensures Enabled(t, SettleFlight(k)) && SameButReceipts(Next(s, SettleFlight(k)), Next(t, SettleFlight(k)))
  {
    SettleBlind(s.core, t.core, k, FlightOf(s, k).at, FlightOf(s, k).window);
  }

  lemma BeginBlind(s: Sys, t: Sys, d: Delivery)
    requires SameButReceipts(s, t) && Enabled(s, Begin(d))
    ensures Enabled(t, Begin(d)) && SameButReceipts(Next(s, Begin(d)), Next(t, Begin(d)))
  {
    UpdateBlind(s.core.db, t.core.db, d.key, d.NewEvent(), d.NewEvent());
  }

  lemma LinkBlind(s: Sys, t: Sys, k: Key)
    requires SameButReceipts(s, t) && Enabled(s, LinkFlight(k))
    ensures Enabled(t, LinkFlight(k)) && SameButReceipts(Next(s, LinkFlight(k)), Next(t, LinkFlight(k)))
  {
    var received := FlightOf(s, k).receipt.value;
    UpdateBlind(s.core.db, t.core.db, k, LinkedReceipt(s.core.db.events[k], received),
                LinkedReceipt(t.core.db.events[k], received));
  }

  lemma TickBlind(c: Core, t: Core, now: Time)
    requires ReceiptsOnly(c.db, t.db) && t == c.(db := t.db)
    ensures ReceiptsOnly(Tick(c, now).db, Tick(t, now).db) && Tick(t, now) == Tick(c, now).(db := Tick(t, now).db)
  {
    assert Tick(t, now).db.episodes == Tick(c, now).db.episodes;
  }

  lemma RowsBlind(s: Sys, t: Sys, a: Action)
    requires SameButReceipts(s, t) && Enabled(s, a)
    requires a.Idle? || a.TickAt? || a.CloseFinalized? || a.ChangeGrace? || a.ReleaseFinalization?
    ensures Enabled(t, a) && SameButReceipts(Next(s, a), Next(t, a))
  {
    match a
    case TickAt(now) => TickBlind(s.core, t.core, now);
    case ReleaseFinalization(now) => TickBlind(s.core.(defer := false), t.core.(defer := false), now);
    case _ =>
  }

  lemma KeptBlind(s: Sys, t: Sys, a: Action)
    requires SameButReceipts(s, t) && Enabled(s, a) && Live(Do(a)) && !a.RedeliverKnown?
    ensures Enabled(t, a) && SameButReceipts(Next(s, a), Next(t, a))
  {
    match a
    case Begin(d) => BeginBlind(s, t, d);
    case LinkFlight(k) => LinkBlind(s, t, k);
    case SettleFlight(k) => SettleFlightBlind(s, t, k);
    case AddEvidence(_, _, _, _) => EvidenceBlind(s, t, a);
    case PlaceEvidence(_, _) => EvidenceBlind(s, t, a);
    case _ => RowsBlind(s, t, a);
  }

  /** The run that keeps only the first delivery of each key. */
  function FirstDeliveries(steps: seq<Step>): seq<Step> {
    if steps == [] then []
    else if steps[0].action.RedeliverKnown? then FirstDeliveries(steps[1..])
    else [steps[0]] + FirstDeliveries(steps[1..])
  }

  /** No redelivery of the run resumes a pending Event. */
  ghost predicate NoResumption(s: Sys, steps: seq<Step>)
    requires Behaves(s, steps)
    decreases |steps|
  {
    steps == [] || (!Resumes(s, steps[0].action) && NoResumption(Take(s, steps[0]), steps[1..]))
  }

  /** Exactly-once effect: a crash-free run with any redeliveries, duplicate or conflicting, none of which resumes
      a pending Event, leaves the same canonical Events, Episodes, Evidence, remembered deadlines and leases as
      the run with only the first delivery of every key.  Only the linked Receipts may differ. */
  lemma {:induction false} ExactlyOnceTheorem(s: Sys, t: Sys, steps: seq<Step>)
    requires SameButReceipts(s, t)
    requires Behaves(s, steps) && LiveRun(steps) && NoResumption(s, steps)
    ensures Behaves(t, FirstDeliveries(steps))
    ensures SameButReceipts(After(s, steps), After(t, FirstDeliveries(steps)))
    decreases |steps|
  {
    if steps != [] {
      assert steps[0] in steps;
      var a := steps[0].action;
      var s' := Next(s, a);
      if a.RedeliverKnown? {
        RedeliveryInertExactly(s, a);
        assert SameButReceipts(s', t);
        ExactlyOnceTheorem(s', t, steps[1..]);
      } else {
        KeptBlind(s, t, a);
        ExactlyOnceTheorem(s', Next(t, a), steps[1..]);
        assert FirstDeliveries(steps)[1..] == FirstDeliveries(steps[1..]);
      }
    }
  }

  /** No redelivery agrees with an Event that is in flight. */
  ghost predicate NoneInFlight(s: Sys, steps: seq<Step>)
    requires Behaves(s, steps)
    decreases |steps|
  {
    steps == [] ||
    (var a := steps[0].action;
     && (a.RedeliverKnown? && InFlight(s, a.d.key) ==> a.d.Conflicts(s.core.db.events[a.d.key]))
     && NoneInFlight(Take(s, steps[0]), steps[1..]))
  }

  lemma {:induction false} NothingToResume(s: Sys, steps: seq<Step>)
    requires Steady(s) && Behaves(s, steps) && LiveRun(steps) && NoneInFlight(s, steps)
    ensures NoResumption(s, steps)
    decreases |steps|
  {
    if steps != [] {
      assert steps[0] in steps;
      SteadyStep(s, steps[0]);
      NothingToResume(Take(s, steps[0]), steps[1..]);
    }
  }

  /** The same as long as no redelivery arrives, under another Area, while its first delivery is in flight. */
  lemma ExactlyOnceUnlessInFlight(s: Sys, t: Sys, steps: seq<Step>)
    requires Steady(s) && SameButReceipts(s, t)
    requires Behaves(s, steps) && LiveRun(steps) && NoneInFlight(s, steps)
    ensures Behaves(t, FirstDeliveries(steps))
    ensures SameButReceipts(After(s, steps), After(t, FirstDeliveries(steps)))
  {
    NothingToResume(s, steps);
    ExactlyOnceTheorem(s, t, steps);
  }
}
