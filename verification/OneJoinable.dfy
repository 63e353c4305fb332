/** Under a fixed grace and ordered ingress, an arrival never has two Episodes to choose from. */
module OneJoinable {
  import opened Domain
  import opened Store
  import opened Lifecycle
  import opened Protocol
  import opened Footprints
  import opened Invariants
  import opened Overtaking
  import opened SteadyRuns
  import opened Erasure
  import opened Clustering

  /** Of two open Episodes of one Area, the older is out of reach of the latest arrival. */
  ghost predicate OutOfReach(c: Core, last: map<Area, Time>) {
    forall i, j | 0 <= i < j < |c.db.episodes| && c.db.episodes[i].Open() && c.db.episodes[j].Open()
                  && c.db.episodes[i].area == c.db.episodes[j].area ::
      c.db.episodes[i].area in last && c.db.episodes[i].Deadline(c.timeout) + c.grace < last[c.db.episodes[i].area]
  }

  lemma QuietKeepsReach(c: Core, c': Core, last: map<Area, Time>, now: Option<Time>)
    requires OutOfReach(c, last) && LifetimesKept(c, c', now) && AllDated(c.db.episodes)
    ensures OutOfReach(c', last) && AllDated(c'.db.episodes)
  {
    forall id | 0 <= id < |c.db.episodes|
      ensures c'.db.episodes[id].Deadline(c.timeout) == c.db.episodes[id].Deadline(c.timeout) && c'.db.episodes[id].Dated()
    {
    }
  }

  lemma JoinKeepsReach(c: Core, last: map<Area, Time>, x: Arrival, id: EpisodeId)
    requires OutOfReach(c, last) && AllDated(c.db.episodes) && CanLinkEvent(c.db, x.key, id)
    requires c.db.episodes[id].area == x.area && NotBefore(LastAt(last, x.area), x.at)
    requires Joinable(c.db.episodes[id], x.area, x.at, c.timeout, c.grace)
    ensures var db' := Run(c.db, JoinProgram(c.db, x.key, id, x.at, x.window));
            OutOfReach(c.(db := db'), last[x.area := x.at]) && AllDated(db'.episodes)
  {
    JoinPrefix(c.db, x.key, id, x.at, x.window, |JoinProgram(c.db, x.key, id, x.at, x.window)|);
    var db' := Run(c.db, JoinProgram(c.db, x.key, id, x.at, x.window));
    assert forall j | id < j < |c.db.episodes| && c.db.episodes[j].Open() :: c.db.episodes[j].area != x.area;
    assert db'.episodes[id].area == x.area && db'.episodes[id].Dated();
    forall i, j | 0 <= i < j < |db'.episodes| && db'.episodes[i].Open() && db'.episodes[j].Open()
                  && db'.episodes[i].area == db'.episodes[j].area
      ensures db'.episodes[i].area in last[x.area := x.at]
              && db'.episodes[i].Deadline(c.timeout) + c.grace < last[x.area := x.at][db'.episodes[i].area]
    {
      assert i != id;
      assert c.db.episodes[j].Open() && c.db.episodes[j].area == db'.episodes[j].area;
    }
  }

  lemma CreateKeepsReach(c: Core, last: map<Area, Time>, x: Arrival)
    requires OutOfReach(c, last) && AllDated(c.db.episodes)
    requires x.key in c.db.events && c.db.events[x.key].episode.None? && c.db.events[x.key].area == x.area
    requires NotBefore(LastAt(last, x.area), x.at)
    requires forall id | 0 <= id < |c.db.episodes| :: !Joinable(c.db.episodes[id], x.area, x.at, c.timeout, c.grace)
    ensures var db' := Run(c.db, CreateProgram(c.db, x.key, x.at, x.window));
            OutOfReach(c.(db := db'), last[x.area := x.at]) && AllDated(db'.episodes)
  {
    CreatePrefix(c.db, x.key, x.at, x.window, 4);
  }

  lemma ArrivalKeepsReach(s: Sys, k: Key, last: map<Area, Time>)
    requires Sound(s) && Fresh(s) && Enabled(s, SettleFlight(k)) && ArrivalOf(s, SettleFlight(k)).Some?
    requires OutOfReach(s.core, last) && AllDated(s.core.db.episodes)
    requires var x := ArrivalOf(s, SettleFlight(k)).value; NotBefore(LastAt(last, x.area), x.at)
    ensures var x := ArrivalOf(s, SettleFlight(k)).value;
            OutOfReach(Next(s, SettleFlight(k)).core, last[x.area := x.at])
            && AllDated(Next(s, SettleFlight(k)).core.db.episodes)
  {
    var x := ArrivalOf(s, SettleFlight(k)).value;
    var target := Target(s.core, k, x.at, false);
    if target.Some? {
      assert Candidate(s.core.db, target.value, x.area, x.at, s.core.timeout, s.core.grace, false);
      JoinKeepsReach(s.core, last, x, target.value);
    } else {
      forall id | 0 <= id < |s.core.db.episodes|
        ensures !Joinable(s.core.db.episodes[id], x.area, x.at, s.core.timeout, s.core.grace)
      {
        assert !Candidate(s.core.db, id, x.area, x.at, s.core.timeout, s.core.grace, false);
      }
      CreateKeepsReach(s.core, last, x);
    }
  }

  /** The arrival times seen by the end of a run. */
  ghost function LastTimes(s: Sys, steps: seq<Step>, last: map<Area, Time>): map<Area, Time>
    requires Behaves(s, steps)
    decreases |steps|
  {
    if steps == [] then last
    else
      var x := ArrivalOf(s, steps[0].action);
      LastTimes(Take(s, steps[0]), steps[1..], if x.Some? then last[x.value.area := x.value.at] else last)
  }

  lemma {:induction false} ReachKept(s: Sys, steps: seq<Step>, last: map<Area, Time>)
    requires Steady(s) && Fresh(s) && OutOfReach(s.core, last) && AllDated(s.core.db.episodes)
    requires Behaves(s, steps) && LiveRun(steps) && FixedGrace(steps) && NoOvertaking(s, steps) && OrderedRun(s, steps, last)
    ensures OutOfReach(After(s, steps).core, LastTimes(s, steps, last))
    decreases |steps|
  {
    if steps != [] {
      assert steps[0] in steps;
      var a := steps[0].action;
      var x := ArrivalOf(s, a);
      SteadyStep(s, steps[0]);
      FreshExactly(s, steps[0]);
      if x.Some? {
        ArrivalKeepsReach(s, a.key, last);
        ReachKept(Next(s, a), steps[1..], last[x.value.area := x.value.at]);
      } else {
        QuietStep(s, a);
        QuietKeepsReach(s.core, Next(s, a).core, last, TickOf(a));
        ReachKept(Next(s, a), steps[1..], last);
      }
    }
  }

  /** However the timer ticks, at most one open Episode of an Area is within its settling horizon at
      the Area's latest ingress time. */
  lemma OneJoinableTheorem(s: Sys, steps: seq<Step>, last: map<Area, Time>, area: Area, i: nat, j: nat)
    requires Steady(s) && Fresh(s) && OutOfReach(s.core, last) && AllDated(s.core.db.episodes)
    requires Behaves(s, steps) && LiveRun(steps) && FixedGrace(steps) && NoOvertaking(s, steps) && OrderedRun(s, steps, last)
    ensures var c, last' := After(s, steps).core, LastTimes(s, steps, last);
            (area in last' && i < |c.db.episodes| && j < |c.db.episodes|
             && Joinable(c.db.episodes[i], area, last'[area], c.timeout, c.grace)
             && Joinable(c.db.episodes[j], area, last'[area], c.timeout, c.grace)) ==> i == j
  {
    ReachKept(s, steps, last);
  }

  /** Rows of other Areas are untouched and new rows belong to the Area. */
  ghost predicate OnlyArea(db: Db, db': Db, area: Area) {
    && |db.episodes| <= |db'.episodes|
    && (forall id | 0 <= id < |db.episodes| && db.episodes[id].area != area :: db'.episodes[id] == db.episodes[id])
    && (forall id | |db.episodes| <= id < |db'.episodes| :: db'.episodes[id].area == area)
  }

  lemma DriveOnlyArea(c: Core, k: Key, at: Time, window: int, recovery: bool, n: nat)
    requires k in c.db.events && n <= |DriveProgram(c, k, at, window, recovery)|
    ensures OnlyArea(c.db, RunTo(c.db, DriveProgram(c, k, at, window, recovery), n), c.db.events[k].area)
  {
    var target := Target(c, k, at, recovery);
    if c.db.events[k].episode.Some? {
      HeldDrivePrefix(c, k, at, window, recovery, n);
    } else if target.Some? {
      JoinPrefix(c.db, k, target.value, at, window, n);
    } else {
      CreatePrefix(c.db, k, at, window, n);
    }
  }

  lemma InactiveOnlyArea(c: Core, k: Key, n: nat)
    requires Consistent(c.db) && k in c.db.events && c.db.events[k].episode.None? && n <= |InactiveProgram(c.db, k)|
    ensures OnlyArea(c.db, RunTo(c.db, InactiveProgram(c.db, k), n), c.db.events[k].area)
  {
    InactivePrefix(c.db, k, n);
    var target := InactiveTarget(c.db, k);
    assert target.Some? ==> c.db.episodes[target.value].area == c.db.events[k].area;
  }

  /** Correlating an Event of one Area leaves every row of every other Area, and every other Event,
      exactly as they were. */
  lemma AreasIndependent(c: Core, k: Key, at: Time, window: int, recovery: bool, n: nat)
    requires Consistent(c.db) && k in c.db.events && Correlatable(c.db.events[k])
    requires n <= |SettleProgram(c, k, at, window, recovery)|
    ensures var db' := RunTo(c.db, SettleProgram(c, k, at, window, recovery), n);
            && OnlyArea(c.db, db', c.db.events[k].area)
            && forall j | j in c.db.events && j != k :: j in db'.events && db'.events[j] == c.db.events[j]
  {
    SettleTouchesOnly(c, k, at, window, recovery, n);
    var e := c.db.events[k];
    if e.area == NO_AREA {
    } else if e.state.InactiveEvent? {
      InactiveOnlyArea(c, k, n);
    } else if e.Drives() {
      DriveOnlyArea(c, k, at, window, recovery, n);
    } else if e.decision.Some? && e.decision.value.classFiltered {
      if e.episode.Some? {
        HeldAttachPrefix(c, k, at, recovery, n);
      } else {
        AttachPrefix(c, k, at, recovery, n);
      }
    }
  }
}
