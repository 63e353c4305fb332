/** Which plugins run.  A reconcile leaves alone what it has no reason to touch, and what it starts runs exactly
    if it could be started. */
module PluginRunning {
  import opened Domain
  import opened PluginReconcile

  /** What the registration is shown of one Device: nothing if it has no use for it, the whole Device if it names
      no fields, else the fields it names, present or not. */
  function Shown(r: Registration, inventory: Inventory, d: DeviceId): Option<Row> {
    if d !in inventory || r.scope == NoDevice then None
    else
      var device := inventory[d];
      if r.scope == Selected && !(device.enabled && device.ready && (r.activation in device.configs || d in r.configured)) then None
      else if r.fields == {} then Some(Whole(device))
      else Some(Fields(map f | f in r.fields - {"id"} :: if f in device.fields then Some(device.fields[f]) else None))
  }

  /** There is a reason to restart the plugin: it is new or changed, it waits for a restart already, or it is
      shown something else than before of the edited Device, or of any if all are compared. */
  ghost predicate Touched(m: Manager, r: Registration, inventory: Inventory, changed: Option<DeviceId>) {
    || r !in m.regs || r.id in m.pending
    || exists d :: (changed.None? || changed == Some(d)) && RowIn(Stored(m, r.id), d) != Shown(r, inventory, d)
  }

  lemma ShownIsProjected(r: Registration, inventory: Inventory, d: DeviceId)
    ensures Shown(r, inventory, d) == RowIn(Some(Projected(r, inventory)), d)
  {
    if d in inventory && r.fields != {} {
      var device := inventory[d];
      assert (map f | f in r.fields - {"id"} :: if f in device.fields then Some(device.fields[f]) else None)
          == map f | f in r.fields && f != "id" :: if f in device.fields then Some(device.fields[f]) else None;
    }
  }

  lemma TouchedExactly(m: Manager, regs: seq<Registration>, inventory: Inventory, changed: Option<DeviceId>, r: Registration)
    requires Settled(m) && m.started && UniqueIds(regs) && r in regs
    ensures r.id in Restarted(m, regs, inventory, changed) <==> Touched(m, r, inventory, changed)
  {
    FindMember(regs, r);
    assert r.id in Ids(regs);
    forall d ensures Shown(r, inventory, d) == RowIn(Some(Projected(r, inventory)), d) {
      ShownIsProjected(r, inventory, d);
    }
    if r in m.regs {
      FindMember(m.regs, r);
      SnapshotDiffers(Stored(m, r.id).value, r, inventory);
    }
  }

  lemma SnapshotDiffers(s: Snapshot, r: Registration, inventory: Inventory)
    ensures s != Projected(r, inventory) <==> exists d :: RowIn(Some(s), d) != Shown(r, inventory, d)
  {
    forall d ensures Shown(r, inventory, d) == RowIn(Some(Projected(r, inventory)), d) {
      ShownIsProjected(r, inventory, d);
    }
    if forall d :: RowIn(Some(s), d) == Shown(r, inventory, d) {
      SameRows(s, Projected(r, inventory));
    }
  }

  // ----- starting ------------------------------------------------------------------------------------------

  /** Registration `i` was started successfully among the first `n`. */
  predicate Launched(regs: seq<Registration>, restart: set<PluginId>, succeeds: set<PluginId>, n: nat, i: nat)
    requires i < |regs|
  {
    i < n && regs[i].id in restart && regs[i].available && regs[i].id in succeeds
  }

  lemma {:induction false} LaunchedRuns(m: Manager, restart: set<PluginId>, succeeds: set<PluginId>, n: nat)
    requires n <= |m.regs| && UniqueIds(m.regs)
    ensures var t := StartedTo(m, restart, succeeds, n);
      && t.inventory == m.inventory && t.regs == m.regs
      && (forall i | 0 <= i < |m.regs| ::
            var id := m.regs[i].id;
            if Launched(m.regs, restart, succeeds, n, i) then id in t.running && t.running[id] == Attempt(m.regs[i], m.inventory)
            else (id in t.running <==> id in m.running) && (id in m.running ==> t.running[id] == m.running[id]))
      && (forall id | id in t.running :: id in m.running || id in Ids(m.regs))
    decreases n
  {
    if n > 0 {
      LaunchedRuns(m, restart, succeeds, n - 1);
      assert m.regs[n - 1].id in Ids(m.regs);
    }
  }

  /** How many registrations a reconcile has come past when it ends. */
  function Reached(m: Manager, restart: set<PluginId>, cancel: Cancel): nat {
    if Hits(m, restart, cancel) then cancel.k else |m.regs|
  }

  lemma StartedAllRuns(m: Manager, restart: set<PluginId>, succeeds: set<PluginId>, cancel: Cancel)
    requires UniqueIds(m.regs)
    ensures var t, n := StartedAll(m, restart, succeeds, cancel), Reached(m, restart, cancel);
      && (forall i | 0 <= i < |m.regs| ::
            var id := m.regs[i].id;
            if Launched(m.regs, restart, succeeds, n, i) then id in t.running && t.running[id] == Attempt(m.regs[i], m.inventory)
            else (id in t.running <==> id in m.running) && (id in m.running ==> t.running[id] == m.running[id]))
      && (forall id | id in t.running :: id in m.running || id in Ids(m.regs))
  {
    LaunchedRuns(m, restart, succeeds, Reached(m, restart, cancel));
  }

  // ----- a reconcile ----------------------------------------------------------------------------------------

  /** The registration at which a cancellation hits is being started, so it is available and has to be. */
  ghost predicate CutAt(m: Manager, regs: seq<Registration>, inventory: Inventory, changed: Option<DeviceId>, cancel: Cancel, k: nat) {
    cancel == WhileStarting(k) && k < |regs| && regs[k].available && (m.started ==> Touched(m, regs[k], inventory, changed))
  }

  /** The reconcile comes to registration `i` before any cancellation. */
  ghost predicate Gets(m: Manager, regs: seq<Registration>, inventory: Inventory, changed: Option<DeviceId>, cancel: Cancel, i: nat) {
    !(m.started && cancel.WhileStopping?) && forall k: nat | CutAt(m, regs, inventory, changed, cancel, k) :: i < k
  }

  /** Said of the starts themselves: how far the reconcile comes, and where it is cut. */
  lemma GetsAsFar(s: Manager, restart: set<PluginId>, m: Manager, inventory: Inventory, changed: Option<DeviceId>, cancel: Cancel)
    requires forall r | r in s.regs :: r.id in restart <==> (m.started ==> Touched(m, r, inventory, changed))
    ensures Hits(s, restart, cancel) <==> exists k: nat :: CutAt(m, s.regs, inventory, changed, cancel, k)
    ensures forall i: nat | i < |s.regs| ::
              Gets(m, s.regs, inventory, changed, cancel, i) <==> !(m.started && cancel.WhileStopping?) && i < Reached(s, restart, cancel)
  {
    if Hits(s, restart, cancel) {
      assert s.regs[cancel.k] in s.regs;
      assert CutAt(m, s.regs, inventory, changed, cancel, cancel.k);
    }
    forall k: nat | CutAt(m, s.regs, inventory, changed, cancel, k) ensures Hits(s, restart, cancel) && k == cancel.k {
      assert s.regs[k] in s.regs;
    }
  }

  lemma StoppedRuns(m: Manager, regs: seq<Registration>, inventory: Inventory, changed: Option<DeviceId>)
    requires Settled(m) && m.started && UniqueIds(regs)
    ensures var s := Stopped(m, regs, inventory, changed);
      && (forall r | r in regs :: r.id in s.pending <==> Touched(m, r, inventory, changed))
      && (forall r | r in regs ::
            if Touched(m, r, inventory, changed) then r.id !in s.running
            else (r.id in s.running <==> r.id in m.running) && (r.id in m.running ==> s.running[r.id] == m.running[r.id]))
      && (forall id | id in s.running :: id in Ids(regs))
  {
    forall r | r in regs
      ensures r.id in Ids(regs) && (r.id in Restarted(m, regs, inventory, changed) <==> Touched(m, r, inventory, changed))
    {
      TouchedExactly(m, regs, inventory, changed, r);
    }
  }

  /** After a reconcile of a manager that had started, cancelled or not: a registered plugin it has no reason to
      touch runs exactly if it ran before, from the same attempt; any other runs exactly if the reconcile got to
      it, it is available and its start succeeded, from this registration and this inventory; and nothing that
      is not registered runs. */
  lemma RunningOutcome(m: Manager, regs: seq<Registration>, inventory: Inventory, changed: Option<DeviceId>,
                       cancel: Cancel, succeeds: set<PluginId>)
    requires Settled(m) && m.started && UniqueIds(regs)
    ensures var t := Reconciled(m, regs, inventory, changed, cancel, succeeds);
      && t.started
      && (forall i: nat | i < |regs| :: RunsAsItShould(m, regs, inventory, changed, cancel, succeeds, i))
      && (forall id | id in t.running :: id in Ids(regs))
  {
    var stopped := Stopped(m, regs, inventory, changed);
    StoppedRuns(m, regs, inventory, changed);
    StoppedSettled(m, regs, inventory, changed);
    if !cancel.WhileStopping? {
      StartedAllKeepsStarted(stopped, succeeds, cancel);
      StartedAllRuns(stopped, stopped.pending, succeeds, cancel);
    }
    forall i: nat | i < |regs| ensures RunsAsItShould(m, regs, inventory, changed, cancel, succeeds, i) {
      OneRunsAsItShould(m, regs, inventory, changed, cancel, succeeds, i);
    }
  }

  lemma OneRunsAsItShould(m: Manager, regs: seq<Registration>, inventory: Inventory, changed: Option<DeviceId>,
                          cancel: Cancel, succeeds: set<PluginId>, i: nat)
    requires Settled(m) && m.started && UniqueIds(regs) && i < |regs|
    ensures RunsAsItShould(m, regs, inventory, changed, cancel, succeeds, i)
  {
    var stopped := Stopped(m, regs, inventory, changed);
    assert regs[i] in regs;
    StoppedRuns(m, regs, inventory, changed);
    GetsAsFar(stopped, stopped.pending, m, inventory, changed, cancel);
    if !cancel.WhileStopping? {
      StartedAllRuns(stopped, stopped.pending, succeeds, cancel);
    }
  }

  /** What `RunningOutcome` says of one registration. */
  ghost predicate RunsAsItShould(m: Manager, regs: seq<Registration>, inventory: Inventory, changed: Option<DeviceId>,
                                 cancel: Cancel, succeeds: set<PluginId>, i: nat)
    requires i < |regs|
  {
    var t, r := Reconciled(m, regs, inventory, changed, cancel, succeeds), regs[i];
    if !Touched(m, r, inventory, changed) then
      (r.id in t.running <==> r.id in m.running) && (r.id in m.running ==> t.running[r.id] == m.running[r.id])
    else
      && (r.id in t.running <==> r.available && r.id in succeeds && Gets(m, regs, inventory, changed, cancel, i))
      && (r.id in t.running ==> t.running[r.id] == Attempt(r, inventory))
  }

  lemma StartedAllKeepsStarted(m: Manager, succeeds: set<PluginId>, cancel: Cancel)
    requires Settled(m) && m.started && m.running.Keys !! m.pending
    ensures StartedAll(m, m.pending, succeeds, cancel).started
  {
    StartedAllFrame(m, m.pending, succeeds, cancel);
  }

  /** The start a cancellation hits was attempted, does not run, and waits for the next reconcile. */
  lemma InterruptedOutcome(m: Manager, regs: seq<Registration>, inventory: Inventory, changed: Option<DeviceId>,
                           cancel: Cancel, succeeds: set<PluginId>, k: nat)
    requires Settled(m) && m.started && UniqueIds(regs) && CutAt(m, regs, inventory, changed, cancel, k)
    ensures var t, r := Reconciled(m, regs, inventory, changed, cancel, succeeds), regs[k];
      r.id in t.attempts && t.attempts[r.id] == Attempt(r, inventory) && r.id in t.pending && r.id !in t.running
  {
    var stopped := Stopped(m, regs, inventory, changed);
    StoppedRuns(m, regs, inventory, changed);
    GetsAsFar(stopped, stopped.pending, m, inventory, changed, cancel);
    PendingAfter(m, regs, inventory, changed, cancel, succeeds, k);
    OneRunsAsItShould(m, regs, inventory, changed, cancel, succeeds, k);
    StartedToEffect(stopped, stopped.pending, succeeds, k);
  }

  /** A first start: every available plugin whose start succeeds runs, or, if it is cancelled, none. */
  lemma FirstStartOutcome(m: Manager, regs: seq<Registration>, inventory: Inventory, changed: Option<DeviceId>,
                          cancel: Cancel, succeeds: set<PluginId>)
    requires !m.started && UniqueIds(regs)
    ensures var t := Reconciled(m, regs, inventory, changed, cancel, succeeds);
      && (t.started <==> forall k: nat :: !CutAt(m, regs, inventory, changed, cancel, k))
      && (!t.started ==> t.running == map[])
      && (t.started ==> forall r | r in regs ::
            && (r.id in t.running <==> r.available && r.id in succeeds)
            && (r.id in t.running ==> t.running[r.id] == Attempt(r, inventory)))
      && (forall id | id in t.running :: id in Ids(regs))
  {
    var c := Configured(m, regs, inventory);
    forall r | r in regs ensures r.id in Ids(regs) {
    }
    StartedAllRuns(c, Ids(regs), succeeds, cancel);
    FirstStartSettled(m, regs, inventory, cancel, succeeds);
    GetsAsFar(c, Ids(regs), m, inventory, changed, cancel);
    forall r | r in regs ensures exists i :: 0 <= i < |regs| && regs[i] == r {
    }
  }

  // ----- runs -------------------------------------------------------------------------------------------------

  /** The plugins whose last start, if any, failed, given those before a reconcile. */
  ghost function Failing(m: Manager, a: Action, inventory: Inventory, failed: iset<PluginId>): iset<PluginId>
    requires a.Reconcile?
  {
    iset id | if exists i :: 0 <= i < |a.regs| && a.regs[i].id == id && a.regs[i].available
                             && (m.started ==> Touched(m, a.regs[i], inventory, a.changed))
                             && Gets(m, a.regs, inventory, a.changed, a.cancel, i)
              then id !in a.succeeds else id in failed
  }

  ghost function FailedAfter(w: World, failed: iset<PluginId>, run: seq<Action>): iset<PluginId>
    decreases |run|
  {
    if run == [] then failed
    else
      var n := |run| - 1;
      var before := FailedAfter(w, failed, run[..n]);
      if run[n].Reconcile? then Failing(After(w, run[..n]).manager, run[n], After(w, run[..n]).inventory, before) else before
  }

  /** Exactly those registered plugins run that are available, do not wait for a restart, and did not fail their
      last start. */
  ghost predicate RunsUnlessFailed(m: Manager, failed: iset<PluginId>) {
    && (forall id | id in m.running :: id in Ids(m.regs))
    && if m.started then forall r | r in m.regs :: r.id in m.running <==> r.available && r.id !in m.pending && r.id !in failed
       else m.running == map[]
  }

  lemma PendingAfter(m: Manager, regs: seq<Registration>, inventory: Inventory, changed: Option<DeviceId>,
                     cancel: Cancel, succeeds: set<PluginId>, i: nat)
    requires Settled(m) && m.started && UniqueIds(regs) && i < |regs|
    ensures var t := Reconciled(m, regs, inventory, changed, cancel, succeeds);
      t.regs == regs && (regs[i].id in t.pending <==>
        Touched(m, regs[i], inventory, changed) && !Gets(m, regs, inventory, changed, cancel, i))
  {
    var stopped := Stopped(m, regs, inventory, changed);
    assert regs[i] in regs;
    StoppedRuns(m, regs, inventory, changed);
    GetsAsFar(stopped, stopped.pending, m, inventory, changed, cancel);
    var n := Reached(stopped, stopped.pending, cancel);
    StartedToEffect(stopped, stopped.pending, succeeds, n);
    IdsUpTo(regs, n, i);
  }

  lemma IdsUpTo(regs: seq<Registration>, n: nat, i: nat)
    requires UniqueIds(regs) && n <= |regs| && i < |regs|
    ensures regs[i].id in Ids(regs[..n]) <==> i < n
  {
    if i < n {
      assert regs[..n][i] == regs[i];
    }
  }

  lemma ReconcileRuns(m: Manager, a: Action, inventory: Inventory, failed: iset<PluginId>)
    requires Settled(m) && RunsUnlessFailed(m, failed) && a.Reconcile? && UniqueIds(a.regs)
    ensures RunsUnlessFailed(Reconciled(m, a.regs, inventory, a.changed, a.cancel, a.succeeds), Failing(m, a, inventory, failed))
  {
    var t, failed' := Reconciled(m, a.regs, inventory, a.changed, a.cancel, a.succeeds), Failing(m, a, inventory, failed);
    if m.started {
      RunningOutcome(m, a.regs, inventory, a.changed, a.cancel, a.succeeds);
      forall i | 0 <= i < |a.regs|
        ensures t.regs == a.regs
        ensures a.regs[i].id in t.running <==> a.regs[i].available && a.regs[i].id !in t.pending && a.regs[i].id !in failed'
      {
        PendingAfter(m, a.regs, inventory, a.changed, a.cancel, a.succeeds, i);
        assert RunsAsItShould(m, a.regs, inventory, a.changed, a.cancel, a.succeeds, i);
        forall j | 0 <= j < |a.regs| && a.regs[j].id == a.regs[i].id ensures j == i {
        }
      }
      ReconciledRegs(m, a.regs, inventory, a.changed, a.cancel, a.succeeds);
    } else {
      FirstStartOutcome(m, a.regs, inventory, a.changed, a.cancel, a.succeeds);
      FirstStartSettled(m, a.regs, inventory, a.cancel, a.succeeds);
      if t.started {
        forall i | 0 <= i < |a.regs|
          ensures a.regs[i].id in t.running <==> a.regs[i].available && a.regs[i].id !in failed'
        {
          assert Gets(m, a.regs, inventory, a.changed, a.cancel, i);
          forall j | 0 <= j < |a.regs| && a.regs[j].id == a.regs[i].id ensures j == i {
          }
        }
      }
    }
  }

  lemma ReconciledRegs(m: Manager, regs: seq<Registration>, inventory: Inventory, changed: Option<DeviceId>,
                       cancel: Cancel, succeeds: set<PluginId>)
    requires Settled(m) && m.started && UniqueIds(regs)
    ensures Reconciled(m, regs, inventory, changed, cancel, succeeds).regs == regs
  {
    var stopped := Stopped(m, regs, inventory, changed);
    StartedToEffect(stopped, stopped.pending, succeeds, Reached(stopped, stopped.pending, cancel));
  }

  /** Over any run of saves and reconciles, cancelled or not: a registered plugin is not running only if it is
      unavailable, waits for a restart, or failed its last start, and in those cases it is not. */
  lemma {:induction false} RunningTheorem(w: World, failed: iset<PluginId>, run: seq<Action>)
    requires Tracks(w) && RunsUnlessFailed(w.manager, failed) && forall a | a in run :: Valid(a)
    ensures RunsUnlessFailed(After(w, run).manager, FailedAfter(w, failed, run))
    decreases |run|
  {
    if run != [] {
      var n := |run| - 1;
      RunningTheorem(w, failed, run[..n]);
      RunTracks(w, run[..n]);
      if run[n].Reconcile? {
        assert Valid(run[n]);
        ReconcileRuns(After(w, run[..n]).manager, run[n], After(w, run[..n]).inventory, FailedAfter(w, failed, run[..n]));
      }
    }
  }
}
