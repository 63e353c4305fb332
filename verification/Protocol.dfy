/** The engine as a protocol: actions of concurrent Areas, the timer, restarts, and crashes that
    may cut any action after any of its transactions. */
module Protocol {
  import opened Domain
  import opened Store
  import opened Lifecycle

  /** A canonicalized Event whose delivery still holds its Area's lock. */
  datatype Flight = Flight(key: Key, at: Time, window: int, receipt: Option<Time>)

  datatype Phase = Running | Recovering | Down

  datatype Sys = Sys(core: Core, phase: Phase, flights: map<Area, Flight>)

  datatype Action =
    | Idle
    | Begin(d: Delivery)
    | LinkFlight(key: Key)
    | SettleFlight(key: Key)
    | RedeliverKnown(d: Delivery, fallback: int)
    | TickAt(now: Time)
    | CloseFinalized(id: EpisodeId, at: Time)
    | ChangeGrace(grace: int)
    | AddEvidence(evidenceId: EvidenceId, evidence: Evidence, recorder: bool, now: Time)
    | PlaceEvidence(evidenceId: EvidenceId, now: Time)
    | StartUp
    | BackfillOne(key: Key)
    | RecoverOne(key: Key, fallback: int)
    | FinishRecovery(now: Time)
    | ReleaseFinalization(now: Time)

  datatype Step = Do(action: Action) | CrashDuring(action: Action, committed: nat)

  predicate InFlight(s: Sys, k: Key) {
    && k in s.core.db.events && s.core.db.events[k].area in s.flights
    && s.flights[s.core.db.events[k].area].key == k
  }

  ghost predicate Enabled(s: Sys, a: Action) {
    match a
    case Idle => true
    case Begin(d) => s.phase.Running? && d.Valid() && d.key !in s.core.db.events && d.area !in s.flights
    case LinkFlight(k) => s.phase.Running? && InFlight(s, k) && s.flights[s.core.db.events[k].area].receipt.Some?
    case SettleFlight(k) => s.phase.Running? && InFlight(s, k) && s.flights[s.core.db.events[k].area].receipt.None?
    case RedeliverKnown(d, fallback) =>
      && s.phase.Running? && d.Valid() && 1 <= fallback && d.key in s.core.db.events && d.area !in s.flights
    case TickAt(_) => s.phase.Running?
    case CloseFinalized(id, _) =>
      s.phase.Running? && !s.core.defer && id < |s.core.db.episodes| && s.core.db.episodes[id].state.Finalizing?
    case ChangeGrace(_) => s.phase.Running?
    case AddEvidence(_, _, _, _) => s.phase.Running?
    case PlaceEvidence(_, _) => !s.phase.Down?
    case StartUp => s.phase.Down?
    case BackfillOne(k) => s.phase.Recovering? && k in s.core.db.events
    case RecoverOne(k, fallback) => s.phase.Recovering? && k in s.core.db.events && 1 <= fallback
    case FinishRecovery(_) =>
      s.phase.Recovering? && forall k | k in s.core.db.events :: !s.core.db.events[k].Pending()
    case ReleaseFinalization(_) => s.phase.Running?
  }

  function FlightOf(s: Sys, k: Key): Flight
    requires InFlight(s, k)
  {
    s.flights[s.core.db.events[k].area]
  }

  /** The transactions of an action, in order. */
  ghost function Program(s: Sys, a: Action): seq<Commit>
    requires Enabled(s, a)
  {
    match a
    case Idle => []
    case Begin(d) => [InsertEvent(d.key, d.NewEvent())]
    case LinkFlight(k) => [LinkReceipt(k, FlightOf(s, k).receipt.value)]
    case SettleFlight(k) => SettleProgram(s.core, k, FlightOf(s, k).at, FlightOf(s, k).window, false)
    case RedeliverKnown(d, fallback) => RedeliverProgram(s.core, d, fallback)
    case TickAt(now) => [TimeOut(now, s.core.timeout, s.core.grace)]
    case CloseFinalized(id, at) => [MarkClosed(id, at)]
    case ChangeGrace(g) => if ValidGrace(g) then [SaveGrace(g)] else []
    case AddEvidence(id, v, recorder, now) => EvidenceProgram(s.core, id, v, recorder, now)
    case PlaceEvidence(id, now) => OrphanEvidenceProgram(s.core, id, now)
    case StartUp => []
    case BackfillOne(k) => [Backfill(k)]
    case RecoverOne(k, fallback) => RecoverProgram(s.core, k, fallback)
    case FinishRecovery(now) => [TimeOut(now, s.core.timeout, s.core.grace)]
    case ReleaseFinalization(now) => [TimeOut(now, s.core.timeout, s.core.grace)]
  }

  /** The state after an action that runs to its end. */
  ghost function Next(s: Sys, a: Action): Sys
    requires Enabled(s, a)
  {
    match a
    case Idle => s
    case Begin(d) =>
      s.(core := s.core.(db := Apply(s.core.db, InsertEvent(d.key, d.NewEvent()))),
         flights := s.flights[d.area := Flight(d.key, d.at, d.window, d.receipt)])
    case LinkFlight(k) =>
      var f := FlightOf(s, k);
      s.(core := s.core.(db := Apply(s.core.db, LinkReceipt(k, f.receipt.value))),
         flights := s.flights[s.core.db.events[k].area := f.(receipt := None)])
    case SettleFlight(k) =>
      s.(core := Settle(s.core, k, FlightOf(s, k).at, FlightOf(s, k).window, false),
         flights := s.flights - {s.core.db.events[k].area})
    case RedeliverKnown(d, fallback) => s.(core := Redeliver(s.core, d, fallback))
    case TickAt(now) => s.(core := Tick(s.core, now))
    case CloseFinalized(id, at) => s.(core := s.core.(db := Apply(s.core.db, MarkClosed(id, at))))
    case ChangeGrace(g) => s.(core := SetGrace(s.core, g))
    case AddEvidence(id, v, recorder, now) =>
      s.(core := s.core.(db := Run(s.core.db, EvidenceProgram(s.core, id, v, recorder, now))))
    case PlaceEvidence(id, now) =>
      s.(core := s.core.(db := Run(s.core.db, OrphanEvidenceProgram(s.core, id, now))))
    case StartUp => Sys(Restart(s.core), Recovering, map[])
    case BackfillOne(k) => s.(core := AfterBackfill(s.core, k))
    case RecoverOne(k, fallback) => s.(core := Recover(s.core, k, fallback))
    case FinishRecovery(now) => s.(core := Tick(s.core, now), phase := Running)
    case ReleaseFinalization(now) => s.(core := Tick(s.core.(defer := false), now))
  }

  ghost predicate StepEnabled(s: Sys, step: Step) {
    Enabled(s, step.action) && (step.CrashDuring? ==> step.committed <= |Program(s, step.action)|)
  }

  /** A crash keeps the committed prefix and nothing that was only in memory. */
  ghost function Crashed(s: Sys, a: Action, n: nat): Sys
    requires Enabled(s, a) && n <= |Program(s, a)|
  {
    Sys(Core(RunTo(s.core.db, Program(s, a), n), s.core.timeout, 0, 0, map[], map[], true), Down, map[])
  }

  ghost function Take(s: Sys, step: Step): Sys
    requires StepEnabled(s, step)
  {
    if step.Do? then Next(s, step.action) else Crashed(s, step.action, step.committed)
  }

  /** Steps taken one after another, each enabled in its turn. */
  ghost predicate Behaves(s: Sys, steps: seq<Step>)
    decreases |steps|
  {
    steps == [] || (StepEnabled(s, steps[0]) && Behaves(Take(s, steps[0]), steps[1..]))
  }

  ghost function After(s: Sys, steps: seq<Step>): Sys
    requires Behaves(s, steps)
    decreases |steps|
  {
    if steps == [] then s else After(Take(s, steps[0]), steps[1..])
  }

  lemma AfterCons(s: Sys, step: Step, rest: seq<Step>)
    requires StepEnabled(s, step) && Behaves(Take(s, step), rest)
    ensures Behaves(s, [step] + rest) && After(s, [step] + rest) == After(Take(s, step), rest)
  {
    assert ([step] + rest)[1..] == rest;
  }

  // ----- every completed action commits exactly its program ------------------------------------

  lemma RecoverCommits(c: Core, k: Key, fallback: int)
    requires k in c.db.events
    ensures Recover(c, k, fallback).db == Run(c.db, RecoverProgram(c, k, fallback))
  {
    if c.db.events[k].Pending() {
      var c' := AfterBackfill(c, k);
      var e := c'.db.events[k];
      var p := [Backfill(k)];
      var q := SettleProgram(c', k, e.RecoveryIngress().value, RecoveryWindow(c', e, fallback), true);
      assert RunTo(c.db, p, 0) == c.db;
      assert Run(c.db, p) == c'.db;
      RunToSuffix(c.db, p, q, |q|, |p + q|);
    }
  }

  lemma RedeliverCommits(c: Core, d: Delivery, fallback: int)
    requires d.key in c.db.events
    ensures Redeliver(c, d, fallback).db == Run(c.db, RedeliverProgram(c, d, fallback))
  {
    var q := ResumeProgram(c, d, fallback);
    RunConcat(c.db, ReceiptProgram(c.db, d), q);
    if RedeliverRecovers(c.db, d) {
      RecoverCommits(AfterReceipt(c, d), d.key, fallback);
    } else {
      assert Run(AfterReceipt(c, d).db, q) == AfterReceipt(c, d).db;
    }
  }

  lemma NextCommitsProgram(s: Sys, a: Action)
    requires Enabled(s, a)
    ensures Next(s, a).core.db == Run(s.core.db, Program(s, a))
  {
    match a
    case RecoverOne(k, fallback) => RecoverCommits(s.core, k, fallback);
    case RedeliverKnown(d, fallback) => RedeliverCommits(s.core, d, fallback);
    case Begin(d) => assert RunTo(s.core.db, Program(s, a), 0) == s.core.db;
    case LinkFlight(k) => assert RunTo(s.core.db, Program(s, a), 0) == s.core.db;
    case BackfillOne(k) => assert RunTo(s.core.db, Program(s, a), 0) == s.core.db;
    case ChangeGrace(g) =>
      if ValidGrace(g) {
        assert RunTo(s.core.db, Program(s, a), 0) == s.core.db;
      }
    case TickAt(now) => assert RunTo(s.core.db, Program(s, a), 0) == s.core.db;
    case FinishRecovery(now) => assert RunTo(s.core.db, Program(s, a), 0) == s.core.db;
    case ReleaseFinalization(now) => assert RunTo(s.core.db, Program(s, a), 0) == s.core.db;
    case CloseFinalized(id, at) => assert RunTo(s.core.db, Program(s, a), 0) == s.core.db;
    case _ =>
  }
}
