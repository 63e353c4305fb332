/** A new grace republishes the remembered leases one Episode at a time, and whatever else the engine does may
    happen between two of them.  An Episode forgotten before its turn ends the loop with an error. */
module Republication {
  import opened Domain
  import opened Store
  import opened Lifecycle
  import opened Protocol
  import opened Footprints
  import opened Invariants
  import opened SteadyRuns
  import LifecycleSafety

  /** The new grace is saved and supersedes every lease; none is republished yet. */
  function Superseded(c: Core, g: int): Core {
    c.(db := Apply(c.db, SaveGrace(g)), grace := g, revision := c.revision + 1)
  }

  ghost predicate Gap(s: Sys, steps: seq<Step>) {
    Behaves(s, steps) && LiveRun(steps)
  }

  /** The loop republishes all of `ids`, each still remembered at its turn, with a crash-free run after each. */
  ghost predicate Rounds(s: Sys, ids: seq<EpisodeId>, gaps: seq<seq<Step>>, t: Sys)
    decreases |ids|
  {
    |gaps| == |ids| &&
    if ids == [] then t == s
    else
      && ids[0] in s.core.deadlines
      && var next := s.(core := PublishLease(s.core, ids[0]));
         Gap(next, gaps[0]) && Rounds(After(next, gaps[0]), ids[1..], gaps[1..], t)
  }

  /** Every remembered Episode outside `rest` holds a lease of the current revision, and such a lease is the
      remembered deadline plus the grace. */
  ghost predicate Republished(c: Core, rest: seq<EpisodeId>) {
    && (forall id | id in c.deadlines :: id < |c.db.episodes|)
    && (forall id | id in c.leases :: c.leases[id].revision <= c.revision)
    && (forall id | id in c.deadlines && id in c.leases && c.leases[id].revision == c.revision ::
          c.leases[id].until == c.deadlines[id] + c.grace)
    && forall id | id in c.deadlines && id !in rest :: id in c.leases && c.leases[id].revision == c.revision
  }

  /** An Episode still to be republished is remembered, or has been sealed. */
  ghost predicate RememberedOrSealed(c: Core, rest: seq<EpisodeId>) {
    forall id | id in rest :: id in c.deadlines || (id < |c.db.episodes| && !c.db.episodes[id].Open())
  }

  // ----- what happens in between -------------------------------------------------------------------------

  lemma MoreRows(c: Core, db: Db, rest: seq<EpisodeId>)
    requires Republished(c, rest) && |c.db.episodes| <= |db.episodes|
    ensures Republished(c.(db := db), rest)
  {
  }

  lemma RememberedIsPublished(c: Core, target: Option<EpisodeId>, end: Time, db: Db, rest: seq<EpisodeId>)
    requires Republished(c, rest) && (target.Some? ==> target.value < |c.db.episodes|)
    requires |db.episodes| >= |c.db.episodes| && (target.None? ==> |db.episodes| > |c.db.episodes|)
    ensures Republished(RememberAndPublish(c, target, end).(db := db), rest)
  {
  }

  /** Correlating opens a row for the Episode it remembers. */
  lemma SettleRows(c: Core, k: Key, at: Time, window: int, recovery: bool)
    requires k in c.db.events && Correlatable(c.db.events[k])
    ensures var db' := Run(c.db, SettleProgram(c, k, at, window, recovery));
      |c.db.episodes| <= |db'.episodes|
      && (c.db.events[k].Drives() && c.db.events[k].area != NO_AREA && Target(c, k, at, recovery).None? ==>
            |c.db.episodes| < |db'.episodes|)
  {
    var p := SettleProgram(c, k, at, window, recovery);
    LifecycleSafety.SettleMoves(c, SettleFlight(k), k, at, window, recovery, |p|);
    if c.db.events[k].Drives() && c.db.events[k].area != NO_AREA && Target(c, k, at, recovery).None? {
      if c.db.events[k].episode.Some? {
        HeldDrivePrefix(c, k, at, window, recovery, |p|);
      } else {
        CreatePrefix(c.db, k, at, window, 4);
      }
    }
  }

  lemma CorrelatingRepublished(s: Sys, a: Action, rest: seq<EpisodeId>)
    requires Sound(s) && Republished(s.core, rest) && Enabled(s, a) && Correlates(a)
    ensures Republished(Next(s, a).core, rest)
  {
    var x := CorrelationOf(s, a);
    RunsCorrelatable(s, a);
    NextSettles(s, a);
    MoreRows(s.core, x.core.db, rest);
    if x.runs {
      SettleRepublished(x.core, x.key, x.at, x.window, x.recovery, rest);
    }
  }

  lemma SettleRepublished(c: Core, k: Key, at: Time, window: int, recovery: bool, rest: seq<EpisodeId>)
    requires k in c.db.events && Correlatable(c.db.events[k]) && Republished(c, rest)
    ensures Republished(Settle(c, k, at, window, recovery), rest)
  {
    SettleRows(c, k, at, window, recovery);
    MemoryRepublished(c, k, Target(c, k, at, recovery), at + window, Run(c.db, SettleProgram(c, k, at, window, recovery)),
                      Settle(c, k, at, window, recovery), rest);
  }

  lemma MemoryRepublished(c: Core, k: Key, target: Option<EpisodeId>, end: Time, db: Db, c': Core, rest: seq<EpisodeId>)
    requires k in c.db.events && Republished(c, rest) && (target.Some? ==> target.value < |c.db.episodes|)
    requires |c.db.episodes| <= |db.episodes|
    requires c.db.events[k].Drives() && c.db.events[k].area != NO_AREA && target.None? ==> |c.db.episodes| < |db.episodes|
    requires c' == WithDb(c, k, target, end, db)
    ensures Republished(c', rest)
  {
    if c.db.events[k].Drives() && c.db.events[k].area != NO_AREA && !HeldElsewhere(c.db.events[k], target) {
      RememberedIsPublished(c, target, end, db, rest);
    } else {
      MoreRows(c, db, rest);
    }
  }

  lemma OtherRepublished(s: Sys, a: Action, rest: seq<EpisodeId>)
    requires Republished(s.core, rest) && Enabled(s, a) && Live(Do(a)) && !Correlates(a)
    ensures Republished(Next(s, a).core, rest)
  {
    if a.AddEvidence? || a.PlaceEvidence? {
      EvidenceRepublished(s, a, rest);
    } else if a.TickAt? {
      TickRepublished(s.core, a.now, rest);
    } else if a.ReleaseFinalization? {
      TickRepublished(s.core.(defer := false), a.now, rest);
    }
  }

  lemma EvidenceRepublished(s: Sys, a: Action, rest: seq<EpisodeId>)
    requires Republished(s.core, rest) && Enabled(s, a) && (a.AddEvidence? || a.PlaceEvidence?)
    ensures Republished(Next(s, a).core, rest)
  {
    EvidencePrefix(s.core.db, Program(s, a), |Program(s, a)|);
    MoreRows(s.core, Next(s, a).core.db, rest);
  }

  lemma TickRepublished(c: Core, now: Time, rest: seq<EpisodeId>)
    requires Republished(c, rest)
    ensures Republished(Tick(c, now), rest)
  {
  }

  /** Deadlines are forgotten only with their Episode sealed, for good. */
  lemma StaysRemembered(s: Sys, a: Action, rest: seq<EpisodeId>)
    requires Sound(s) && RememberedOrSealed(s.core, rest) && Enabled(s, a) && Live(Do(a))
    ensures RememberedOrSealed(Next(s, a).core, rest)
  {
    LifecycleSafety.StepMoves(s, Do(a));
    ForgetsOnlySealed(s, a);
    forall id | id in rest ensures id in Next(s, a).core.deadlines
                                   || (id < |Next(s, a).core.db.episodes| && !Next(s, a).core.db.episodes[id].Open())
    {
      assert id < |s.core.db.episodes| ==> LifecycleSafety.StateMove(s.core, a, s.core.db.episodes[id], Next(s, a).core.db.episodes[id]);
    }
  }

  lemma ForgetsOnlySealed(s: Sys, a: Action)
    requires Enabled(s, a) && Live(Do(a))
    ensures forall id | id in s.core.deadlines :: id in Next(s, a).core.deadlines || id in AwaitingClose(Next(s, a).core.db.episodes)
  {
    if Correlates(a) {
      NextSettles(s, a);
    }
  }

  lemma {:induction false} GapKeeps(s: Sys, steps: seq<Step>, rest: seq<EpisodeId>)
    requires Sound(s) && Republished(s.core, rest) && RememberedOrSealed(s.core, rest) && Gap(s, steps)
    ensures var t := After(s, steps); Sound(t) && Republished(t.core, rest) && RememberedOrSealed(t.core, rest)
    decreases |steps|
  {
    if steps != [] {
      assert steps[0] in steps;
      var a := steps[0].action;
      SoundStep(s, steps[0]);
      StaysRemembered(s, a, rest);
      if Correlates(a) {
        CorrelatingRepublished(s, a, rest);
      } else {
        OtherRepublished(s, a, rest);
      }
      GapKeeps(Take(s, steps[0]), steps[1..], rest);
    }
  }

  // ----- the loop --------------------------------------------------------------------------------------------

  lemma OneRound(s: Sys, ids: seq<EpisodeId>)
    requires Republished(s.core, ids) && RememberedOrSealed(s.core, ids) && ids != [] && ids[0] in s.core.deadlines
    ensures var c := PublishLease(s.core, ids[0]); Republished(c, ids[1..]) && RememberedOrSealed(c, ids[1..])
  {
    assert forall id | id in ids :: id == ids[0] || id in ids[1..];
    assert forall id | id in ids[1..] :: id in ids;
  }

  lemma {:induction false} RoundsKeep(s: Sys, ids: seq<EpisodeId>, rest: seq<EpisodeId>, gaps: seq<seq<Step>>, t: Sys)
    requires Sound(s) && Republished(s.core, ids + rest) && RememberedOrSealed(s.core, ids + rest) && Rounds(s, ids, gaps, t)
    ensures Sound(t) && Republished(t.core, rest) && RememberedOrSealed(t.core, rest)
    decreases |ids|
  {
    if ids == [] {
      assert ids + rest == rest;
    } else {
      var next := s.(core := PublishLease(s.core, ids[0]));
      OneRound(s, ids + rest);
      assert (ids + rest)[1..] == ids[1..] + rest;
      GapKeeps(next, gaps[0], ids[1..] + rest);
      RoundsKeep(After(next, gaps[0]), ids[1..], rest, gaps[1..], t);
    }
  }

  /** However the loop is interleaved: after `done` rounds every remembered Episode that is not still to come
      holds a lease of the current revision, its deadline plus the grace; and the next round raises only if
      its Episode has been sealed meanwhile.  After the last round nothing is still to come. */
  lemma RepublicationTheorem(s: Sys, g: int, done: seq<EpisodeId>, rest: seq<EpisodeId>, gaps: seq<seq<Step>>, t: Sys)
    requires Sound(s) && s.phase.Running? && ValidGrace(g) && Republished(s.core, done + rest)
    requires forall id :: id in s.core.deadlines <==> id in done + rest
    requires Rounds(s.(core := Superseded(s.core, g)), done, gaps, t)
    ensures forall id | id in t.core.deadlines && id !in rest ::
              id in t.core.leases && t.core.leases[id] == Lease(t.core.revision, t.core.deadlines[id] + t.core.grace)
    ensures rest != [] && rest[0] !in t.core.deadlines ==>
              rest[0] < |t.core.db.episodes| && !t.core.db.episodes[rest[0]].Open()
  {
    var s' := s.(core := Superseded(s.core, g));
    RoundsKeep(s', done, rest, gaps, t);
  }

  /** Sealing an Episode before its turn does make its round raise, unless finalization is deferred. */
  lemma SealedIsForgotten(c: Core, now: Time, id: EpisodeId)
    requires id in c.deadlines && id < |c.db.episodes| && c.db.episodes[id].Open()
    ensures id !in Tick(c, now).deadlines <==> !c.defer && c.db.episodes[id].Deadline(c.timeout) + c.grace < now
  {
  }

  // ----- without interruption ----------------------------------------------------------------------------------

  function NoGaps(n: nat): seq<seq<Step>> {
    seq(n, i => [])
  }

  lemma {:induction false} PublishedInOneGo(s: Sys, ids: seq<EpisodeId>, t: Sys)
    requires Rounds(s, ids, NoGaps(|ids|), t)
    ensures t == s.(core := s.core.(leases := t.core.leases))
    ensures t.core.leases == s.core.leases
              + map id | id in s.core.deadlines && id in ids :: Lease(s.core.revision, s.core.deadlines[id] + s.core.grace)
    decreases |ids|
  {
    if ids != [] {
      var next := s.(core := PublishLease(s.core, ids[0]));
      assert NoGaps(|ids|)[1..] == NoGaps(|ids[1..]|);
      PublishedInOneGo(next, ids[1..], t);
      assert forall id | id in ids :: id == ids[0] || id in ids[1..];
    }
  }

  /** Uninterrupted the loop does what a grace change is taken to do in one step. */
  lemma UninterruptedIsOneStep(s: Sys, g: int, ids: seq<EpisodeId>, t: Sys)
    requires ValidGrace(g) && s.phase.Running? && (forall id :: id in s.core.deadlines <==> id in ids)
    requires Rounds(s.(core := Superseded(s.core, g)), ids, NoGaps(|ids|), t)
    ensures t == Next(s, ChangeGrace(g))
  {
    PublishedInOneGo(s.(core := Superseded(s.core, g)), ids, t);
  }
}
