/** What the timer, a new grace, a restart and closing leave behind, said of rows and memory alone. */
module CallOutcomes {
  import opened Domain
  import opened Store
  import opened Lifecycle
  import opened Protocol
  import opened Outcomes

  /** What a timer pass does to a row that ends at `end`: past its grace it is sealed and has no end yet; from
      `end` on an active one rests; any other stays as it is. */
  predicate RowTimed(r: Episode, r': Episode, end: Time, grace: int, now: Time) {
    if !(r.state == Active || r.state == Quiescent) then r' == r
    else if end + grace < now then r' == r.(state := Finalizing, endTime := None)
    else if r.state == Active && end <= now then r' == r.(state := Quiescent)
    else r' == r
  }

  /** A timer pass.  Unless finalization is deferred, exactly the sealed Episodes are forgotten. */
  lemma TickOutcome(c: Core, now: Time)
    ensures var c' := Tick(c, now);
      && c' == c.(db := c.db.(episodes := c'.db.episodes), deadlines := c'.deadlines)
      && |c'.db.episodes| == |c.db.episodes|
      && (forall id, end | 0 <= id < |c.db.episodes| && EndsAt(c.db.episodes[id], c.timeout, end) ::
            RowTimed(c.db.episodes[id], c'.db.episodes[id], end, c.grace, now))
      && (forall id: nat :: id in c'.deadlines <==>
            id in c.deadlines && !(!c.defer && id < |c.db.episodes| && c'.db.episodes[id].state == Finalizing))
      && (forall id | id in c'.deadlines :: c'.deadlines[id] == c.deadlines[id])
  {
    forall id, end | 0 <= id < |c.db.episodes| && EndsAt(c.db.episodes[id], c.timeout, end)
      ensures RowTimed(c.db.episodes[id], Tick(c, now).db.episodes[id], end, c.grace, now)
    {
      DeadlineMeans(c.db.episodes[id], c.timeout);
    }
  }

  /** A new grace is accepted from 0 to 60 seconds: it is saved, in force at once, and every remembered lease is
      reissued under the next revision; any other changes nothing. */
  lemma GraceOutcome(c: Core, g: int)
    ensures var c' := SetGrace(c, g);
      if 0 <= g <= 60 then
        && c' == c.(db := c.db.(grace := g), grace := g, revision := c.revision + 1, leases := c'.leases)
        && c'.leases.Keys == c.leases.Keys + c.deadlines.Keys
        && forall id | id in c'.leases ::
             c'.leases[id] == if id in c.deadlines then Lease(c.revision + 1, c.deadlines[id] + g) else c.leases[id]
      else c' == c
  {
  }

  /** A restart keeps the database and its grace, remembers exactly the open Episodes by their deadlines, has
      issued no lease yet, and defers finalization. */
  lemma RestartOutcome(s: Sys)
    requires s.phase.Down?
    ensures var c, s' := s.core, Next(s, StartUp);
      && s'.phase == Recovering && s'.flights == map[]
      && s'.core == Core(c.db, c.timeout, c.db.grace, 0, s'.core.deadlines, map[], true)
      && (forall id: nat :: id in s'.core.deadlines <==>
            id < |c.db.episodes| && (c.db.episodes[id].state == Active || c.db.episodes[id].state == Quiescent))
      && forall id, end | id in s'.core.deadlines && EndsAt(c.db.episodes[id], c.timeout, end) :: s'.core.deadlines[id] == end
  {
    forall id, end | id in Next(s, StartUp).core.deadlines && EndsAt(s.core.db.episodes[id], s.core.timeout, end)
      ensures Next(s, StartUp).core.deadlines[id] == end
    {
      DeadlineMeans(s.core.db.episodes[id], s.core.timeout);
    }
  }

  /** Ending the deferral: later passes forget what they seal, and this one already does. */
  lemma ReleaseOutcome(s: Sys, now: Time)
    requires s.phase.Running?
    ensures var c' := Next(s, ReleaseFinalization(now)).core;
      !c'.defer && forall id | 0 <= id < |c'.db.episodes| && c'.db.episodes[id].state == Finalizing :: id !in c'.deadlines
  {
    TickOutcome(s.core.(defer := false), now);
  }

  /** Closing one finalized Episode. */
  lemma CloseOutcome(s: Sys, id: EpisodeId, at: Time)
    requires Enabled(s, CloseFinalized(id, at))
    ensures Next(s, CloseFinalized(id, at))
            == s.(core := s.core.(db := s.core.db.(episodes :=
                 s.core.db.episodes[id := s.core.db.episodes[id].(state := Closed, endTime := Some(at))])))
  {
  }

  /** Closing after a pass: unless deferred, exactly the finalizing Episodes whose finalizer succeeded are closed
      and stamped. */
  lemma CloseReadyOutcome(c: Core, succeeded: set<EpisodeId>, at: Time)
    ensures var c' := CloseReady(c, succeeded, at);
      if c.defer then c' == c
      else
        && c' == c.(db := c.db.(episodes := c'.db.episodes)) && |c'.db.episodes| == |c.db.episodes|
        && forall id | 0 <= id < |c.db.episodes| ::
             c'.db.episodes[id] == if c.db.episodes[id].state == Finalizing && id in succeeded
                                   then c.db.episodes[id].(state := Closed, endTime := Some(at)) else c.db.episodes[id]
  {
  }

  /** Recovery ends with a timer pass: every row is timed, unless deferred what is sealed is forgotten, and the
      engine runs. */
  lemma FinishOutcome(s: Sys, now: Time)
    requires Enabled(s, FinishRecovery(now))
    ensures var c, s' := s.core, Next(s, FinishRecovery(now));
      && s'.phase == Running && |s'.core.db.episodes| == |c.db.episodes|
      && (forall id, end | 0 <= id < |c.db.episodes| && EndsAt(c.db.episodes[id], c.timeout, end) ::
            RowTimed(c.db.episodes[id], s'.core.db.episodes[id], end, c.grace, now))
      && (!c.defer ==> forall id | 0 <= id < |s'.core.db.episodes| && s'.core.db.episodes[id].state == Finalizing ::
            id !in s'.core.deadlines)
  {
    TickOutcome(s.core, now);
  }

  // ----- the locks ---------------------------------------------------------------------------------------------

  /** A first delivery takes its Area's lock with its time, its window and the Receipt still to be linked; linking
      the Receipt and correlating follow, by that time and window, and the lock is released. */
  lemma DeliveryOutcome(s: Sys, d: Delivery)
    requires s.phase.Running? && d.Valid() && d.key !in s.core.db.events && d.area !in s.flights
    ensures var s1 := Next(s, Begin(d));
      && s1.flights == s.flights[d.area := Flight(d.key, d.at, d.window, d.receipt)]
      && s1.core == s.core.(db := s.core.db.(events := s.core.db.events[d.key :=
           Event(d.device, d.area, d.timestamp, d.eventType, d.state, d.decision, None, if d.ownPath then d.receipt else None, None)]))
      && Enabled(s1, if d.receipt.Some? then LinkFlight(d.key) else SettleFlight(d.key))
      && var s2 := if d.receipt.Some? then Next(s1, LinkFlight(d.key)) else s1;
         && s2 == s1.(core := Canonicalized(s.core, d), flights := s.flights[d.area := Flight(d.key, d.at, d.window, None)])
         && Enabled(s2, SettleFlight(d.key))
         && Next(s2, SettleFlight(d.key)) == s2.(core := Settle(s2.core, d.key, d.at, d.window, false), flights := s.flights)
  {
  }
}
