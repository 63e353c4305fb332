/** The engine's correlation refines gap clustering: a pure fold over the arrivals of each Area. */
module Clustering {
  import opened Domain
  import opened Store
  import opened Lifecycle
  import opened Protocol
  import opened Footprints
  import opened Invariants
  import opened Overtaking
  import opened CrashRecovery
  import opened SteadyRuns
  import opened Erasure

  // ----- gap clustering, independent of the engine ---------------------------------------------------

  datatype Arrival = Arrival(key: Key, area: Area, at: Time, window: int)

  datatype Cluster = Cluster(area: Area, members: seq<Arrival>)

  /** The latest end of any member's activity window. */
  function Horizon(members: seq<Arrival>): (h: Time)
    requires members != []
    ensures forall m | m in members :: m.at + m.window <= h
    ensures exists m :: m in members && m.at + m.window == h
  {
    var last := members[|members| - 1];
    if |members| == 1 then
      assert last in members;
      last.at + last.window
    else
      var before := Horizon(members[..|members| - 1]);
      assert forall m | m in members :: m in members[..|members| - 1] || m == last;
      assert last in members;
      Max(before, last.at + last.window)
  }

  /** The newest cluster of an Area. */
  function Newest(cs: seq<Cluster>, area: Area): (i: Option<nat>)
    ensures i.Some? ==> i.value < |cs| && cs[i.value].area == area
                        && forall j | i.value < j < |cs| :: cs[j].area != area
    ensures i.None? ==> forall j | 0 <= j < |cs| :: cs[j].area != area
  {
    if cs == [] then None
    else if cs[|cs| - 1].area == area then Some(|cs| - 1)
    else Newest(cs[..|cs| - 1], area)
  }

  ghost predicate NonEmpty(cs: seq<Cluster>) {
    forall i | 0 <= i < |cs| :: cs[i].members != []
  }

  /** An arrival joins the newest cluster of its Area when it falls within the grace of its horizon. */
  function Joins(cs: seq<Cluster>, x: Arrival, grace: int): Option<nat>
    requires NonEmpty(cs)
  {
    var i := Newest(cs, x.area);
    if i.Some? && x.at <= Horizon(cs[i.value].members) + grace then i else None
  }

  function AddArrival(cs: seq<Cluster>, x: Arrival, grace: int): (cs': seq<Cluster>)
    requires NonEmpty(cs)
    ensures NonEmpty(cs')
  {
    var i := Joins(cs, x, grace);
    if i.Some? then cs[i.value := Cluster(x.area, cs[i.value].members + [x])]
    else cs + [Cluster(x.area, [x])]
  }

  function FoldArrivals(cs: seq<Cluster>, xs: seq<Arrival>, grace: int): (cs': seq<Cluster>)
    requires NonEmpty(cs)
    ensures NonEmpty(cs')
    decreases |xs|
  {
    if xs == [] then cs else FoldArrivals(AddArrival(cs, xs[0], grace), xs[1..], grace)
  }

  function InArea(xs: seq<Arrival>, area: Area): seq<Arrival> {
    if xs == [] then []
    else (if xs[0].area == area then [xs[0]] else []) + InArea(xs[1..], area)
  }

  function ClustersOf(cs: seq<Cluster>, area: Area): seq<Cluster> {
    if cs == [] then []
    else ClustersOf(cs[..|cs| - 1], area) + if cs[|cs| - 1].area == area then [cs[|cs| - 1]] else []
  }

  lemma ClustersOfNonEmpty(cs: seq<Cluster>, area: Area)
    requires NonEmpty(cs)
    ensures NonEmpty(ClustersOf(cs, area)) && forall i | 0 <= i < |ClustersOf(cs, area)| :: ClustersOf(cs, area)[i].area == area
  {
    if cs != [] {
      ClustersOfNonEmpty(cs[..|cs| - 1], area);
    }
  }

  lemma ClustersOfUpdate(cs: seq<Cluster>, area: Area, i: nat, c: Cluster)
    requires i < |cs| && cs[i].area == c.area && (forall j | i < j < |cs| :: cs[j].area != c.area)
    ensures c.area == area ==> ClustersOf(cs, area) != [] && ClustersOf(cs, area)[|ClustersOf(cs, area)| - 1] == cs[i]
    ensures var before := ClustersOf(cs, area);
            ClustersOf(cs[i := c], area)
            == if c.area == area then before[..|before| - 1] + [c] else before
  {
    var n := |cs| - 1;
    if i == n {
      assert cs[i := c][..n] == cs[..n];
    } else {
      ClustersOfUpdate(cs[..n], area, i, c);
      assert cs[i := c][..n] == cs[..n][i := c];
    }
  }

  lemma NewestOf(cs: seq<Cluster>, area: Area)
    ensures var own := ClustersOf(cs, area);
            && (Newest(cs, area).Some? <==> own != [])
            && (own != [] ==> own[|own| - 1] == cs[Newest(cs, area).value])
  {
    if cs != [] && cs[|cs| - 1].area != area {
      NewestOf(cs[..|cs| - 1], area);
    }
  }

  lemma JoinedInArea(cs: seq<Cluster>, x: Arrival, grace: int, area: Area)
    requires NonEmpty(cs) && NonEmpty(ClustersOf(cs, area)) && Joins(cs, x, grace).Some?
    ensures ClustersOf(AddArrival(cs, x, grace), area)
            == if x.area == area then AddArrival(ClustersOf(cs, area), x, grace) else ClustersOf(cs, area)
  {
    var i := Joins(cs, x, grace).value;
    var own := ClustersOf(cs, area);
    var c := Cluster(x.area, cs[i].members + [x]);
    ClustersOfUpdate(cs, area, i, c);
    if x.area == area {
      assert Newest(own, area) == Some(|own| - 1);
      assert own[|own| - 1 := c] == own[..|own| - 1] + [c];
    }
  }

  lemma StartedInArea(cs: seq<Cluster>, x: Arrival, grace: int, area: Area)
    requires NonEmpty(cs) && NonEmpty(ClustersOf(cs, area)) && Joins(cs, x, grace).None?
    ensures ClustersOf(AddArrival(cs, x, grace), area)
            == if x.area == area then AddArrival(ClustersOf(cs, area), x, grace) else ClustersOf(cs, area)
  {
    var own := ClustersOf(cs, area);
    assert (cs + [Cluster(x.area, [x])])[..|cs|] == cs;
    if x.area == area {
      NewestOf(cs, area);
      ClustersOfNonEmpty(cs, area);
      assert own != [] ==> Newest(own, area) == Some(|own| - 1);
    }
  }

  lemma FoldCons(cs: seq<Cluster>, x: Arrival, xs: seq<Arrival>, grace: int)
    requires NonEmpty(cs)
    ensures FoldArrivals(cs, [x] + xs, grace) == FoldArrivals(AddArrival(cs, x, grace), xs, grace)
  {
    assert ([x] + xs)[1..] == xs;
  }

  lemma FoldInArea(own: seq<Cluster>, x: Arrival, theirs: seq<Arrival>, grace: int, area: Area)
    requires NonEmpty(own)
    ensures FoldArrivals(own, (if x.area == area then [x] else []) + theirs, grace)
            == FoldArrivals(if x.area == area then AddArrival(own, x, grace) else own, theirs, grace)
  {
    if x.area == area {
      FoldCons(own, x, theirs, grace);
    } else {
      assert [] + theirs == theirs;
    }
  }

  lemma AddedInArea(cs: seq<Cluster>, x: Arrival, grace: int, area: Area)
    requires NonEmpty(cs)
    ensures NonEmpty(ClustersOf(cs, area))
    ensures ClustersOf(AddArrival(cs, x, grace), area)
            == if x.area == area then AddArrival(ClustersOf(cs, area), x, grace) else ClustersOf(cs, area)
  {
    ClustersOfNonEmpty(cs, area);
    if Joins(cs, x, grace).Some? {
      JoinedInArea(cs, x, grace, area);
    } else {
      StartedInArea(cs, x, grace, area);
    }
  }

  /** Clustering all arrivals together treats every Area as if it were alone. */
  lemma {:induction false} AreasClusterAlone(cs: seq<Cluster>, xs: seq<Arrival>, grace: int, area: Area)
    requires NonEmpty(cs)
    ensures NonEmpty(ClustersOf(cs, area))
    ensures ClustersOf(FoldArrivals(cs, xs, grace), area)
            == FoldArrivals(ClustersOf(cs, area), InArea(xs, area), grace)
    decreases |xs|
  {
    ClustersOfNonEmpty(cs, area);
    if xs != [] {
      var x, rest := xs[0], xs[1..];
      var cs' := AddArrival(cs, x, grace);
      AddedInArea(cs, x, grace, area);
      AreasClusterAlone(cs', rest, grace, area);
      FoldInArea(ClustersOf(cs, area), x, InArea(rest, area), grace, area);
      assert FoldArrivals(cs, xs, grace) == FoldArrivals(cs', rest, grace);
    }
  }

  // ----- the engine against the fold ------------------------------------------------------------------

  /** The arrival a step correlates, if it correlates a driving Event. */
  ghost function ArrivalOf(s: Sys, a: Action): Option<Arrival>
    requires Enabled(s, a)
  {
    if a.SettleFlight? && s.core.db.events[a.key].Drives() && s.core.db.events[a.key].area != NO_AREA then
      var f := FlightOf(s, a.key);
      Some(Arrival(a.key, s.core.db.events[a.key].area, f.at, f.window))
    else None
  }

  /** The arrivals of a run, in the order they are correlated. */
  ghost function Arrivals(s: Sys, steps: seq<Step>): seq<Arrival>
    requires Behaves(s, steps)
    decreases |steps|
  {
    if steps == [] then []
    else
      var x := ArrivalOf(s, steps[0].action);
      (if x.Some? then [x.value] else []) + Arrivals(Take(s, steps[0]), steps[1..])
  }

  predicate NotBefore(bound: Option<Time>, t: Time) {
    bound.Some? ==> bound.value <= t
  }

  function LastAt(last: map<Area, Time>, area: Area): Option<Time> {
    if area in last then Some(last[area]) else None
  }

  /** Ingress times do not decrease within an Area. */
  ghost predicate OrderedRun(s: Sys, steps: seq<Step>, last: map<Area, Time>)
    requires Behaves(s, steps)
    decreases |steps|
  {
    steps == [] ||
    (var x := ArrivalOf(s, steps[0].action);
     && (x.Some? ==> NotBefore(LastAt(last, x.value.area), x.value.at))
     && OrderedRun(Take(s, steps[0]), steps[1..],
                   if x.Some? then last[x.value.area := x.value.at] else last))
  }

  function TickOf(a: Action): Option<Time> {
    match a
    case TickAt(now) => Some(now)
    case ReleaseFinalization(now) => Some(now)
    case _ => None
  }

  /** No timer pass observes an instant later than a driving Event that is correlated after it. */
  ghost predicate TimelyRun(s: Sys, steps: seq<Step>, clock: Option<Time>)
    requires Behaves(s, steps)
    decreases |steps|
  {
    steps == [] ||
    (var x := ArrivalOf(s, steps[0].action);
     var t := TickOf(steps[0].action);
     && (x.Some? ==> NotBefore(clock, x.value.at))
     && TimelyRun(Take(s, steps[0]), steps[1..], Later(clock, t)))
  }

  function Later(clock: Option<Time>, now: Option<Time>): Option<Time> {
    if now.Some? && NotBefore(clock, now.value) then now else clock
  }

  /** The latest instant a timer pass of the run observed, if that is later than `clock`. */
  function LatestTick(steps: seq<Step>, clock: Option<Time>): Option<Time> {
    if steps == [] then clock else LatestTick(steps[1..], Later(clock, TickOf(steps[0].action)))
  }

  ghost predicate FixedGrace(steps: seq<Step>) {
    forall step | step in steps :: !step.action.ChangeGrace?
  }

  function Latest(c: Cluster): Time
    requires c.members != []
  {
    c.members[|c.members| - 1].at
  }

  /** The clock has strictly passed the horizon and the grace. */
  predicate Past(c: Cluster, grace: int, clock: Option<Time>)
    requires c.members != []
  {
    clock.Some? && Horizon(c.members) + grace < clock.value
  }

  predicate RowMatches(e: Episode, c: Cluster, grace: int, clock: Option<Time>)
    requires c.members != []
  {
    && e.area == c.area && e.minimumEnd == Some(Horizon(c.members)) && e.lastActivity == Some(Latest(c))
    && (e.Open() <==> !Past(c, grace, clock))
  }

  ghost predicate LinksMatch(events: map<Key, Event>, cs: seq<Cluster>) {
    forall k, id: nat :: (k in events && events[k].Drives() && events[k].episode == Some(id))
                         <==> (id < |cs| && HasMember(cs[id], k))
  }

  predicate HasMember(c: Cluster, k: Key) {
    exists m :: m in c.members && m.key == k
  }

  /** Older clusters of an Area are out of reach of every arrival since. */
  ghost predicate Separated(cs: seq<Cluster>, grace: int)
    requires NonEmpty(cs)
  {
    forall i, j | 0 <= i < j < |cs| && cs[i].area == cs[j].area :: Horizon(cs[i].members) + grace < Latest(cs[j])
  }

  ghost predicate RowsMatch(rows: seq<Episode>, cs: seq<Cluster>, grace: int, clock: Option<Time>) {
    && NonEmpty(cs) && |rows| == |cs|
    && forall id | 0 <= id < |cs| :: RowMatches(rows[id], cs[id], grace, clock)
  }

  /** The Episode table is the cluster list, row by row. */
  ghost predicate Matches(c: Core, cs: seq<Cluster>, clock: Option<Time>) {
    && RowsMatch(c.db.episodes, cs, c.grace, clock) && Separated(cs, c.grace) && LinksMatch(c.db.events, cs)
  }

  lemma RowsMatchUpdate(rows: seq<Episode>, cs: seq<Cluster>, grace: int, clock: Option<Time>,
                        id: nat, r: Episode, c: Cluster)
    requires RowsMatch(rows, cs, grace, clock) && id < |cs| && c.members != [] && RowMatches(r, c, grace, clock)
    ensures RowsMatch(rows[id := r], cs[id := c], grace, clock)
  {
  }

  ghost predicate LastMatches(cs: seq<Cluster>, last: map<Area, Time>)
    requires NonEmpty(cs)
  {
    forall i | 0 <= i < |cs| && Newest(cs, cs[i].area) == Some(i) ::
      cs[i].area in last && last[cs[i].area] == Latest(cs[i])
  }

  /** A timely arrival targets exactly the cluster it joins. */
  lemma {:induction false} TargetIsCluster(c: Core, cs: seq<Cluster>, clock: Option<Time>, k: Key, x: Arrival)
    requires Matches(c, cs, clock) && k in c.db.events && x.area == c.db.events[k].area && NotBefore(clock, x.at)
    requires Newest(cs, x.area).Some? ==> Latest(cs[Newest(cs, x.area).value]) <= x.at
    ensures Target(c, k, x.at, false) == Joins(cs, x, c.grace)
  {
    var found := Target(c, k, x.at, false);
    var i := Newest(cs, x.area);
    assert forall id | 0 <= id < |cs| :: RowMatches(c.db.episodes[id], cs[id], c.grace, clock);
    if found.Some? {
      FoundIsNewest(c, cs, clock, found.value, x);
    }
    if Joins(cs, x, c.grace).Some? {
      assert Candidate(c.db, i.value, x.area, x.at, c.timeout, c.grace, false);
    }
  }

  /** Only the newest cluster of an Area is in reach of its next arrival. */
  lemma OlderOutOfReach(cs: seq<Cluster>, grace: int, x: Arrival)
    requires NonEmpty(cs) && Separated(cs, grace)
    requires Newest(cs, x.area).Some? && Latest(cs[Newest(cs, x.area).value]) <= x.at
    ensures forall id | 0 <= id < |cs| && cs[id].area == x.area && id != Newest(cs, x.area).value ::
              Horizon(cs[id].members) + grace < x.at
  {
  }

  lemma FoundIsNewest(c: Core, cs: seq<Cluster>, clock: Option<Time>, id: nat, x: Arrival)
    requires Matches(c, cs, clock) && id < |cs| && Candidate(c.db, id, x.area, x.at, c.timeout, c.grace, false)
    requires Newest(cs, x.area).Some? ==> Latest(cs[Newest(cs, x.area).value]) <= x.at
    ensures Joins(cs, x, c.grace) == Some(id)
  {
    assert RowMatches(c.db.episodes[id], cs[id], c.grace, clock);
    assert Newest(cs, x.area).Some?;
    OlderOutOfReach(cs, c.grace, x);
  }

  lemma HorizonAppend(members: seq<Arrival>, x: Arrival)
    requires members != []
    ensures Horizon(members + [x]) == Max(Horizon(members), x.at + x.window)
    ensures Horizon([x]) == x.at + x.window
  {
    assert (members + [x])[..|members|] == members;
  }

  lemma MemberAppend(c: Cluster, x: Arrival, k: Key)
    ensures HasMember(Cluster(x.area, c.members + [x]), k) <==> HasMember(c, k) || k == x.key
    ensures HasMember(Cluster(x.area, [x]), k) <==> k == x.key
  {
    var c' := Cluster(x.area, c.members + [x]);
    assert x in c'.members && x in [x];
    if HasMember(c, k) {
      var m :| m in c.members && m.key == k;
      assert m in c'.members;
    }
    if HasMember(c', k) && k != x.key {
      var m :| m in c'.members && m.key == k;
      assert m in c.members;
    }
  }

  /** The newest cluster of the Area was last joined no later than `at`. */
  predicate InOrder(cs: seq<Cluster>, area: Area, at: Time)
    requires NonEmpty(cs)
  {
    Newest(cs, area).Some? ==> Latest(cs[Newest(cs, area).value]) <= at
  }

  lemma AddSeparated(cs: seq<Cluster>, x: Arrival, grace: int)
    requires NonEmpty(cs) && Separated(cs, grace) && InOrder(cs, x.area, x.at)
    ensures Separated(AddArrival(cs, x, grace), grace)
  {
    var cs' := AddArrival(cs, x, grace);
    var i := Newest(cs, x.area);
    forall a, b | 0 <= a < b < |cs'| && cs'[a].area == cs'[b].area
      ensures Horizon(cs'[a].members) + grace < Latest(cs'[b])
    {
      if Joins(cs, x, grace).Some? {
        assert a != i.value;
      } else if b == |cs| {
        assert a == i.value || Horizon(cs[a].members) + grace < Latest(cs[i.value]);
      }
    }
  }

  lemma NewestAfterAdd(cs: seq<Cluster>, x: Arrival, grace: int, area: Area)
    requires NonEmpty(cs)
    ensures var cs' := AddArrival(cs, x, grace);
            var i := Newest(cs', area);
            && (area != x.area ==> i == Newest(cs, area) && (i.Some? ==> cs'[i.value] == cs[i.value]))
            && (area == x.area ==> i.Some? && Latest(cs'[i.value]) == x.at)
  {
    var cs' := AddArrival(cs, x, grace);
    var i, before := Newest(cs', area), Newest(cs, area);
    assert forall j | 0 <= j < |cs| :: cs'[j].area == cs[j].area;
    if area != x.area {
      assert i.Some? ==> cs[i.value].area == area;
      assert before.Some? ==> cs'[before.value].area == area;
    } else if Joins(cs, x, grace).Some? {
      assert cs'[before.value].area == area;
      assert i.value == before.value;
    } else {
      assert cs'[|cs|].area == area;
      assert i.value == |cs|;
    }
  }

  lemma LinksAdd(events: map<Key, Event>, cs: seq<Cluster>, cs': seq<Cluster>, x: Arrival, id: nat)
    requires LinksMatch(events, cs) && x.key in events && events[x.key].Drives() && events[x.key].episode.None?
    requires |cs| <= |cs'| <= |cs| + 1 && id < |cs'| && (|cs'| == |cs| + 1 ==> id == |cs|)
    requires forall j | 0 <= j < |cs| && j != id :: cs'[j] == cs[j]
    requires forall k :: HasMember(cs'[id], k) <==> (id < |cs| && HasMember(cs[id], k)) || k == x.key
    ensures LinksMatch(events[x.key := events[x.key].(episode := Some(id))], cs')
  {
    var events' := events[x.key := events[x.key].(episode := Some(id))];
    forall k, j: nat
      ensures (k in events' && events'[k].Drives() && events'[k].episode == Some(j)) <==> (j < |cs'| && HasMember(cs'[j], k))
    {
      assert !(j < |cs| && HasMember(cs[j], x.key)) by {
        assert !(events[x.key].episode == Some(j));
      }
    }
  }

  lemma JoinedRowMatches(e: Episode, c: Cluster, x: Arrival, timestamp: Time, grace: int, clock: Option<Time>)
    requires c.members != [] && RowMatches(e, c, grace, clock) && e.Open() && x.area == c.area
    ensures RowMatches(JoinRow(e, timestamp, x.at, x.window, if e.state.Quiescent? then 4 else 3),
                       Cluster(x.area, c.members + [x]), grace, clock)
  {
    HorizonAppend(c.members, x);
  }

  lemma {:induction false} JoinedMatches(c: Core, cs: seq<Cluster>, clock: Option<Time>, x: Arrival)
    requires Matches(c, cs, clock) && x.key in c.db.events && x.area == c.db.events[x.key].area
    requires c.db.events[x.key].Drives() && c.db.events[x.key].episode.None?
    requires InOrder(cs, x.area, x.at) && NotBefore(clock, x.at) && Joins(cs, x, c.grace).Some?
    ensures var id := Joins(cs, x, c.grace).value;
            id < |c.db.episodes| &&
            Matches(c.(db := Run(c.db, JoinProgram(c.db, x.key, id, x.at, x.window))), AddArrival(cs, x, c.grace), clock)
  {
    var id := Joins(cs, x, c.grace).value;
    var p := JoinProgram(c.db, x.key, id, x.at, x.window);
    assert RowMatches(c.db.episodes[id], cs[id], c.grace, clock);
    JoinPrefix(c.db, x.key, id, x.at, x.window, |p|);
    var timestamp := c.db.events[x.key].timestamp;
    JoinedRowMatches(c.db.episodes[id], cs[id], x, timestamp, c.grace, clock);
    RowsMatchUpdate(c.db.episodes, cs, c.grace, clock, id,
                    JoinRow(c.db.episodes[id], timestamp, x.at, x.window, |p|), Cluster(x.area, cs[id].members + [x]));
    AddSeparated(cs, x, c.grace);
    JoinedLinks(c.db.events, cs, x, id, c.grace);
  }

  lemma JoinedLinks(events: map<Key, Event>, cs: seq<Cluster>, x: Arrival, id: nat, grace: int)
    requires NonEmpty(cs) && LinksMatch(events, cs) && Joins(cs, x, grace) == Some(id)
    requires x.key in events && events[x.key].Drives() && events[x.key].episode.None?
    ensures LinksMatch(events[x.key := events[x.key].(episode := Some(id))], AddArrival(cs, x, grace))
  {
    forall k ensures HasMember(Cluster(x.area, cs[id].members + [x]), k) <==> HasMember(cs[id], k) || k == x.key {
      MemberAppend(cs[id], x, k);
    }
    LinksAdd(events, cs, AddArrival(cs, x, grace), x, id);
  }

  lemma StartedMatches(c: Core, cs: seq<Cluster>, clock: Option<Time>, x: Arrival)
    requires Matches(c, cs, clock) && x.key in c.db.events && x.area == c.db.events[x.key].area
    requires c.db.events[x.key].Drives() && c.db.events[x.key].episode.None?
    requires InOrder(cs, x.area, x.at) && NotBefore(clock, x.at) && 0 <= x.window + c.grace && Joins(cs, x, c.grace).None?
    ensures Matches(c.(db := Run(c.db, CreateProgram(c.db, x.key, x.at, x.window))), AddArrival(cs, x, c.grace), clock)
  {
    CreatePrefix(c.db, x.key, x.at, x.window, 4);
    HorizonAppend([x], x);
    AddSeparated(cs, x, c.grace);
    StartedLinks(c.db.events, cs, x, c.grace);
  }

  lemma StartedLinks(events: map<Key, Event>, cs: seq<Cluster>, x: Arrival, grace: int)
    requires NonEmpty(cs) && LinksMatch(events, cs) && Joins(cs, x, grace).None?
    requires x.key in events && events[x.key].Drives() && events[x.key].episode.None?
    ensures LinksMatch(events[x.key := events[x.key].(episode := Some(|cs|))], AddArrival(cs, x, grace))
  {
    forall k ensures HasMember(Cluster(x.area, [x]), k) <==> k == x.key {
      MemberAppend(Cluster(x.area, []), x, k);
    }
    LinksAdd(events, cs, AddArrival(cs, x, grace), x, |cs|);
  }

  /** Changes that keep every row's lifetime and every driving link keep the match. */
  ghost predicate LifetimesKept(c: Core, c': Core, now: Option<Time>) {
    && c'.grace == c.grace && c'.timeout == c.timeout && |c'.db.episodes| == |c.db.episodes|
    && (forall id | 0 <= id < |c.db.episodes| ::
          var r, r' := c.db.episodes[id], c'.db.episodes[id];
          && r'.area == r.area && r'.minimumEnd == r.minimumEnd && r'.lastActivity == r.lastActivity
          && (r'.Open() <==> r.Open() && !(now.Some? && r.Deadline(c.timeout) + c.grace < now.value)))
    && (forall k | k in c'.db.events && c'.db.events[k].Drives() && c'.db.events[k].episode.Some? ::
          k in c.db.events && c.db.events[k].Drives() && c.db.events[k].episode == c'.db.events[k].episode)
    && (forall k | k in c.db.events && c.db.events[k].Drives() && c.db.events[k].episode.Some? ::
          k in c'.db.events && c'.db.events[k].Drives() && c'.db.events[k].episode == c.db.events[k].episode)
  }

  lemma LifetimesMatch(c: Core, c': Core, cs: seq<Cluster>, clock: Option<Time>, now: Option<Time>)
    requires Matches(c, cs, clock) && LifetimesKept(c, c', now)
    ensures Matches(c', cs, Later(clock, now))
  {
    forall id | 0 <= id < |cs| ensures RowMatches(c'.db.episodes[id], cs[id], c.grace, Later(clock, now)) {
      assert RowMatches(c.db.episodes[id], cs[id], c.grace, clock);
    }
    forall k, id: nat
      ensures (k in c'.db.events && c'.db.events[k].Drives() && c'.db.events[k].episode == Some(id))
              <==> (id < |cs| && HasMember(cs[id], k))
    {
    }
  }

  lemma MatchesDated(c: Core, cs: seq<Cluster>, clock: Option<Time>)
    requires Matches(c, cs, clock)
    ensures AllDated(c.db.episodes)
  {
    forall id | 0 <= id < |cs| ensures c.db.episodes[id].Dated() {
      assert RowMatches(c.db.episodes[id], cs[id], c.grace, clock);
    }
  }

  lemma SettleArrival(s: Sys, k: Key, cs: seq<Cluster>, clock: Option<Time>)
    requires Sound(s) && Fresh(s) && Enabled(s, SettleFlight(k)) && ArrivalOf(s, SettleFlight(k)).Some?
    requires Matches(s.core, cs, clock)
    requires var x := ArrivalOf(s, SettleFlight(k)).value; InOrder(cs, x.area, x.at) && NotBefore(clock, x.at)
    ensures var x := ArrivalOf(s, SettleFlight(k)).value;
            Matches(Next(s, SettleFlight(k)).core, AddArrival(cs, x, s.core.grace), clock)
  {
    var x := ArrivalOf(s, SettleFlight(k)).value;
    TargetIsCluster(s.core, cs, clock, k, x);
    var target := Target(s.core, k, x.at, false);
    var c' := Next(s, SettleFlight(k)).core;
    if target.Some? {
      JoinedMatches(s.core, cs, clock, x);
      LifetimesMatch(s.core.(db := c'.db), c', AddArrival(cs, x, s.core.grace), clock, None);
    } else {
      StartedMatches(s.core, cs, clock, x);
      LifetimesMatch(s.core.(db := c'.db), c', AddArrival(cs, x, s.core.grace), clock, None);
    }
  }

  lemma QuietSettle(s: Sys, k: Key)
    requires Sound(s) && Enabled(s, SettleFlight(k)) && ArrivalOf(s, SettleFlight(k)).None? && AllDated(s.core.db.episodes)
    ensures LifetimesKept(s.core, Next(s, SettleFlight(k)).core, None)
  {
    var f := FlightOf(s, k);
    if !s.core.db.events[k].Drives() {
      QuietAttribution(s.core, k, f.at, f.window, false);
    }
  }

  /** Correlating an Event that may not drive capture touches no lifetime. */
  lemma QuietAttribution(c: Core, k: Key, at: Time, window: int, recovery: bool)
    requires k in c.db.events && Correlatable(c.db.events[k]) && !c.db.events[k].Drives() && AllDated(c.db.episodes)
    ensures LifetimesKept(c, Settle(c, k, at, window, recovery), None)
  {
    var t := c.db.(events := c.db.events - {k});
    SettleOutside(c, k, at, window, recovery, t, iset{k});
    var c' := Settle(c, k, at, window, recovery);
    forall id | 0 <= id < |c.db.episodes| ensures LifeOf(c'.db.episodes[id]) == LifeOf(c.db.episodes[id]) {
    }
  }

  lemma QuietRedelivery(s: Sys, a: Action)
    requires Steady(s) && Enabled(s, a) && a.RedeliverKnown? && !Overtakes(s, a) && AllDated(s.core.db.episodes)
    ensures LifetimesKept(s.core, Next(s, a).core, None)
  {
    var x := CorrelationOf(s, a);
    ResumesOnlyFiltered(s, a);
    QuietReceipts(s.core, x.core);
    if x.runs {
      RunsCorrelatable(s, a);
      QuietAttribution(x.core, x.key, x.at, x.window, true);
    }
  }

  lemma QuietReceipts(c: Core, c': Core)
    requires ReceiptsOnly(c.db, c'.db) && c' == c.(db := c'.db)
    ensures LifetimesKept(c, c', None)
  {
  }

  lemma QuietEvidence(c: Core, c': Core)
    requires EvidenceOnly(c.db, c'.db) && c' == c.(db := c'.db)
    ensures LifetimesKept(c, c', None)
  {
  }

  lemma QuietTimer(c: Core, now: Time)
    ensures LifetimesKept(c, Tick(c, now), Some(now))
  {
  }

  lemma QuietOther(s: Sys, a: Action)
    requires Enabled(s, a) && (a.Idle? || a.Begin? || a.LinkFlight? || a.CloseFinalized?)
    ensures LifetimesKept(s.core, Next(s, a).core, None)
  {
    if a.LinkFlight? {
      QuietReceipts(s.core, Next(s, a).core);
    }
  }

  /** A step that correlates no driving Event keeps every lifetime, save that a timer may seal rows. */
  lemma QuietStep(s: Sys, a: Action)
    requires Steady(s) && Enabled(s, a) && Live(Do(a)) && !a.ChangeGrace?
    requires AllDated(s.core.db.episodes) && ArrivalOf(s, a).None? && !Overtakes(s, a)
    ensures LifetimesKept(s.core, Next(s, a).core, TickOf(a))
  {
    match a
    case SettleFlight(k) => QuietSettle(s, k);
    case RedeliverKnown(_, _) => QuietRedelivery(s, a);
    case AddEvidence(_, _, _, _) =>
      EvidencePrefix(s.core.db, Program(s, a), |Program(s, a)|);
      QuietEvidence(s.core, Next(s, a).core);
    case PlaceEvidence(_, _) =>
      EvidencePrefix(s.core.db, Program(s, a), |Program(s, a)|);
      QuietEvidence(s.core, Next(s, a).core);
    case TickAt(now) => QuietTimer(s.core, now);
    case ReleaseFinalization(now) => QuietTimer(s.core.(defer := false), now);
    case _ => QuietOther(s, a);
  }

  lemma LastAfterAdd(cs: seq<Cluster>, last: map<Area, Time>, x: Arrival, grace: int)
    requires NonEmpty(cs) && LastMatches(cs, last)
    ensures LastMatches(AddArrival(cs, x, grace), last[x.area := x.at])
  {
    var cs' := AddArrival(cs, x, grace);
    forall i | 0 <= i < |cs'| && Newest(cs', cs'[i].area) == Some(i)
      ensures cs'[i].area in last[x.area := x.at] && last[x.area := x.at][cs'[i].area] == Latest(cs'[i])
    {
      NewestAfterAdd(cs, x, grace, cs'[i].area);
    }
  }

  /** The refinement theorem: in a crash-free run with a fixed grace and no overtaking redelivery, with ingress
      times that do not decrease within an Area and timer passes that never observe an instant after a later
      arrival, the Episode table is at every moment the list of gap clusters of the arrivals: the same driving
      Events per Episode, and each deadline the latest end of its members' windows.  A row is sealed exactly when
      some pass has observed an instant strictly past its horizon plus the grace.  Where else the timer passes
      fall, and what else happens in between, makes no difference. */
  lemma {:induction false} ClusteringTheorem(s: Sys, steps: seq<Step>, cs: seq<Cluster>, clock: Option<Time>, last: map<Area, Time>)
    requires Steady(s) && Fresh(s)
    requires Behaves(s, steps) && LiveRun(steps) && FixedGrace(steps) && NoOvertaking(s, steps)
    requires Matches(s.core, cs, clock) && LastMatches(cs, last)
    requires OrderedRun(s, steps, last) && TimelyRun(s, steps, clock)
    ensures Matches(After(s, steps).core, FoldArrivals(cs, Arrivals(s, steps), s.core.grace), LatestTick(steps, clock))
    decreases |steps|
  {
    if steps != [] {
      assert steps[0] in steps;
      var a := steps[0].action;
      var s' := Next(s, a);
      SteadyStep(s, steps[0]);
      FreshExactly(s, steps[0]);
      MatchesDated(s.core, cs, clock);
      var x := ArrivalOf(s, a);
      var rest := Arrivals(s', steps[1..]);
      if x.Some? {
        SettleArrival(s, a.key, cs, clock);
        LastAfterAdd(cs, last, x.value, s.core.grace);
        FoldCons(cs, x.value, rest, s.core.grace);
        GraceFixed(s, a);
        ClusteringTheorem(s', steps[1..], AddArrival(cs, x.value, s.core.grace), clock, last[x.value.area := x.value.at]);
      } else {
        QuietStep(s, a);
        LifetimesMatch(s.core, s'.core, cs, clock, TickOf(a));
        assert Arrivals(s, steps) == rest;
        ClusteringTheorem(s', steps[1..], cs, Later(clock, TickOf(a)), last);
      }
    }
  }

  lemma GraceFixed(s: Sys, a: Action)
    requires Enabled(s, a) && a.SettleFlight?
    ensures Next(s, a).core.grace == s.core.grace
  {
  }

  /** From an empty database the engine computes exactly the gap clustering of its arrivals, and
      every Area's part of it is the clustering of that Area's own arrivals. */
  lemma EngineClusters(s: Sys, steps: seq<Step>, area: Area)
    requires Steady(s) && s.core.db.episodes == [] && s.core.db.events == map[]
    requires Behaves(s, steps) && LiveRun(steps) && FixedGrace(steps) && NoOvertaking(s, steps)
    requires OrderedRun(s, steps, map[]) && TimelyRun(s, steps, None)
    ensures Matches(After(s, steps).core, FoldArrivals([], Arrivals(s, steps), s.core.grace), LatestTick(steps, None))
    ensures ClustersOf(FoldArrivals([], Arrivals(s, steps), s.core.grace), area)
            == FoldArrivals([], InArea(Arrivals(s, steps), area), s.core.grace)
  {
    ClusteringTheorem(s, steps, [], None, map[]);
    AreasClusterAlone([], Arrivals(s, steps), s.core.grace, area);
  }
}
