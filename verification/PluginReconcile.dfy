/** Plugin reconciliation as a function of the manager's state, and why it converges.  Devices are saved at
    any time; reconciles run one after the other, each with the inventory read when it begins, narrowed to
    the Device it is for, and possibly cancelled while it stops or starts plugins. */
module PluginReconcile {
  import opened Domain

  type PluginId = string
  type DeviceId = string

  datatype Device = Device(enabled: bool, ready: bool, configs: set<string>, fields: map<string, string>)

  type Inventory = map<DeviceId, Device>

  datatype Scope = Selected | AllDevices | NoDevice

  /** `other` stands for everything else that makes two registrations differ. */
  datatype Registration = Registration(
    id: PluginId, scope: Scope, activation: string, configured: set<DeviceId>, fields: set<string>,
    available: bool, other: int)

  datatype Row = Whole(device: Device) | Fields(values: map<string, Option<string>>)

  /** What a plugin sees of the inventory, by Device. */
  type Snapshot = map<DeviceId, Row>

  /** A (re)start of a plugin: from which registration and which inventory. */
  datatype Attempt = Attempt(registration: Registration, inventory: Inventory)

  datatype Manager = Manager(
    started: bool,
    regs: seq<Registration>,
    inventory: Inventory,
    running: map<PluginId, Attempt>,
    snapshots: map<PluginId, Snapshot>,
    pending: set<PluginId>,
    attempts: map<PluginId, Attempt>)

  /** Where a cancellation hits a reconcile: nowhere, while stopping, or while starting registration `k`. */
  datatype Cancel = Never | WhileStopping | WhileStarting(k: nat)

  // ----- projections ---------------------------------------------------------------------------

  predicate Selects(r: Registration, d: DeviceId, device: Device) {
    match r.scope
    case NoDevice => false
    case AllDevices => true
    case Selected => device.enabled && device.ready && (r.activation in device.configs || d in r.configured)
  }

  function RowOf(r: Registration, device: Device): Row {
    if r.fields == {} then Whole(device)
    else Fields(map f | f in r.fields && f != "id" ::
                  if f in device.fields then Some(device.fields[f]) else None)
  }

  function Projected(r: Registration, inventory: Inventory): Snapshot {
    map d | d in inventory && Selects(r, d, inventory[d]) :: RowOf(r, inventory[d])
  }

  function RowIn(s: Option<Snapshot>, d: DeviceId): Option<Row> {
    if s.Some? && d in s.value then Some(s.value[d]) else None
  }

  predicate InventoryChanged(previous: Option<Snapshot>, current: Snapshot, changed: Option<DeviceId>) {
    if changed.None? then previous != Some(current)
    else RowIn(previous, changed.value) != RowIn(Some(current), changed.value)
  }

  /** Only the row of the edited Device advances. */
  function Merged(previous: Option<Snapshot>, current: Snapshot, d: DeviceId): Snapshot {
    if previous.None? then current
    else (previous.value - {d}) + if d in current then map[d := current[d]] else map[]
  }

  // ----- registrations ---------------------------------------------------------------------------

  function Ids(regs: seq<Registration>): set<PluginId> {
    set r | r in regs :: r.id
  }

  predicate UniqueIds(regs: seq<Registration>) {
    forall i, j | 0 <= i < j < |regs| :: regs[i].id != regs[j].id
  }

  function Find(regs: seq<Registration>, id: PluginId): (found: Option<Registration>)
    ensures found.Some? ==> found.value in regs && found.value.id == id
    ensures found.None? ==> id !in Ids(regs)
  {
    if regs == [] then None
    else if regs[0].id == id then Some(regs[0])
    else
      assert regs == [regs[0]] + regs[1..];
      Find(regs[1..], id)
  }

  lemma FindMember(regs: seq<Registration>, r: Registration)
    requires UniqueIds(regs) && r in regs
    ensures Find(regs, r.id) == Some(r)
  {
    var f := Find(regs, r.id).value;
    var i :| 0 <= i < |regs| && regs[i] == r;
    var j :| 0 <= j < |regs| && regs[j] == f;
  }

  function Stored(m: Manager, id: PluginId): Option<Snapshot> {
    if id in m.snapshots then Some(m.snapshots[id]) else None
  }

  /** The registration is new, gone or different, or its view of the inventory is. */
  predicate Differs(m: Manager, regs: seq<Registration>, inventory: Inventory, changed: Option<DeviceId>, id: PluginId) {
    var before, after := Find(m.regs, id), Find(regs, id);
    before.None? || after.None? || before != after
    || InventoryChanged(Stored(m, id), Projected(after.value, inventory), changed)
  }

  /** The registered plugins a reconcile restarts. */
  function Restarted(m: Manager, regs: seq<Registration>, inventory: Inventory, changed: Option<DeviceId>): set<PluginId> {
    set id | id in Ids(regs) && (Differs(m, regs, inventory, changed, id) || id in m.pending)
  }

  function NewSnapshot(m: Manager, r: Registration, inventory: Inventory, changed: Option<DeviceId>, restart: set<PluginId>): Snapshot {
    if r.id in restart || changed.None? then Projected(r, inventory)
    else Merged(Stored(m, r.id), Projected(r, inventory), changed.value)
  }

  function NewSnapshots(m: Manager, regs: seq<Registration>, inventory: Inventory, changed: Option<DeviceId>, restart: set<PluginId>)
    : map<PluginId, Snapshot>
  {
    map id | id in Ids(regs) :: NewSnapshot(m, Find(regs, id).value, inventory, changed, restart)
  }

  // ----- a reconcile -----------------------------------------------------------------------------------

  /** Everything up to the first start: what is to be restarted is stopped, and what is gone. */
  function Stopped(m: Manager, regs: seq<Registration>, inventory: Inventory, changed: Option<DeviceId>): Manager {
    var restart := Restarted(m, regs, inventory, changed);
    Manager(true, regs, inventory,
            map id | id in m.running && id in Ids(regs) && id !in restart :: m.running[id],
            NewSnapshots(m, regs, inventory, changed, restart), restart, m.attempts)
  }

  /** An attempt that was not cancelled; an unavailable registration is only noted. */
  function StartOne(m: Manager, r: Registration, succeeds: set<PluginId>): Manager {
    if !r.available then m.(pending := m.pending - {r.id})
    else
      var a := Attempt(r, m.inventory);
      m.(attempts := m.attempts[r.id := a], pending := m.pending - {r.id},
         running := if r.id in succeeds then m.running[r.id := a] else m.running)
  }

  /** A cancelled attempt stays pending. */
  function Interrupted(m: Manager, r: Registration): Manager {
    m.(attempts := m.attempts[r.id := Attempt(r, m.inventory)])
  }

  /** The first `n` registrations have been started where needed. */
  function StartedTo(m: Manager, restart: set<PluginId>, succeeds: set<PluginId>, n: nat): Manager
    requires n <= |m.regs|
  {
    if n == 0 then m
    else
      var before := StartedTo(m, restart, succeeds, n - 1);
      if m.regs[n - 1].id in restart then StartOne(before, m.regs[n - 1], succeeds) else before
  }

  /** The cancellation hits the start of a plugin that is being started. */
  predicate Hits(m: Manager, restart: set<PluginId>, cancel: Cancel) {
    cancel.WhileStarting? && cancel.k < |m.regs| && m.regs[cancel.k].id in restart && m.regs[cancel.k].available
  }

  function StartedAll(m: Manager, restart: set<PluginId>, succeeds: set<PluginId>, cancel: Cancel): Manager {
    if Hits(m, restart, cancel) then Interrupted(StartedTo(m, restart, succeeds, cancel.k), m.regs[cancel.k])
    else StartedTo(m, restart, succeeds, |m.regs|)
  }

  /** The manager as configured for a first start. */
  function Configured(m: Manager, regs: seq<Registration>, inventory: Inventory): Manager {
    Manager(true, regs, inventory, map[], map id | id in Ids(regs) :: Projected(Find(regs, id).value, inventory),
            {}, m.attempts)
  }

  /** A first start; cancelled, it stops everything again. */
  function FirstStart(m: Manager, regs: seq<Registration>, inventory: Inventory, cancel: Cancel, succeeds: set<PluginId>): Manager {
    var c := Configured(m, regs, inventory);
    var s := StartedAll(c, Ids(regs), succeeds, cancel);
    if Hits(c, Ids(regs), cancel) then s.(started := false, running := map[]) else s
  }

  function Reconciled(m: Manager, regs: seq<Registration>, inventory: Inventory, changed: Option<DeviceId>,
                      cancel: Cancel, succeeds: set<PluginId>): Manager {
    if !m.started then FirstStart(m, regs, inventory, cancel, succeeds)
    else
      var stopped := Stopped(m, regs, inventory, changed);
      if cancel.WhileStopping? then stopped
      else StartedAll(stopped, stopped.pending, succeeds, cancel)
  }

  /** The reconcile ran to its end. */
  predicate Completed(m: Manager, regs: seq<Registration>, inventory: Inventory, changed: Option<DeviceId>, cancel: Cancel) {
    if !m.started then !Hits(Configured(m, regs, inventory), Ids(regs), cancel)
    else
      var stopped := Stopped(m, regs, inventory, changed);
      !cancel.WhileStopping? && !Hits(stopped, stopped.pending, cancel)
  }

  // ----- starting -----------------------------------------------------------------------------------------

  /** What starting the first `n` registrations does. */
  lemma {:induction false} StartedToEffect(m: Manager, restart: set<PluginId>, succeeds: set<PluginId>, n: nat)
    requires n <= |m.regs| && UniqueIds(m.regs)
    ensures var t := StartedTo(m, restart, succeeds, n);
      && t.started == m.started && t.regs == m.regs && t.inventory == m.inventory && t.snapshots == m.snapshots
      && t.pending == m.pending - (Ids(m.regs[..n]) * restart)
      && (forall i | 0 <= i < n && m.regs[i].id in restart && m.regs[i].available ::
            m.regs[i].id in t.attempts && t.attempts[m.regs[i].id] == Attempt(m.regs[i], m.inventory))
      && (forall id | id in m.attempts && id !in restart :: id in t.attempts && t.attempts[id] == m.attempts[id])
    decreases n
  {
    if n > 0 {
      StartedToEffect(m, restart, succeeds, n - 1);
      assert m.regs[..n] == m.regs[..n - 1] + [m.regs[n - 1]];
      assert Ids(m.regs[..n]) == Ids(m.regs[..n - 1]) + {m.regs[n - 1].id};
    }
  }

  /** Whatever runs is the last attempt of its plugin. */
  ghost predicate RunningAreAttempts(m: Manager) {
    forall id | id in m.running :: id in Ids(m.regs) && id in m.attempts && m.running[id] == m.attempts[id]
  }

  lemma OneRuns(m: Manager, r: Registration, succeeds: set<PluginId>)
    requires RunningAreAttempts(m) && r in m.regs && r.id !in m.running
    ensures RunningAreAttempts(StartOne(m, r, succeeds))
    ensures StartOne(m, r, succeeds).running.Keys <= m.running.Keys + {r.id}
  {
    assert r.id in Ids(m.regs);
  }

  lemma IdsGrow(regs: seq<Registration>, n: nat)
    requires 0 < n <= |regs| && UniqueIds(regs)
    ensures Ids(regs[..n]) == Ids(regs[..n - 1]) + {regs[n - 1].id} && regs[n - 1].id !in Ids(regs[..n - 1])
  {
    assert regs[..n] == regs[..n - 1] + [regs[n - 1]];
  }

  lemma {:induction false} StartedToRuns(m: Manager, restart: set<PluginId>, succeeds: set<PluginId>, n: nat)
    requires n <= |m.regs| && UniqueIds(m.regs) && RunningAreAttempts(m) && m.running.Keys !! restart
    ensures RunningAreAttempts(StartedTo(m, restart, succeeds, n))
    ensures StartedTo(m, restart, succeeds, n).running.Keys <= m.running.Keys + Ids(m.regs[..n]) * restart
    decreases n
  {
    if n > 0 {
      StartedToRuns(m, restart, succeeds, n - 1);
      StartedToEffect(m, restart, succeeds, n - 1);
      IdsGrow(m.regs, n);
      if m.regs[n - 1].id in restart {
        OneRuns(StartedTo(m, restart, succeeds, n - 1), m.regs[n - 1], succeeds);
      }
    }
  }

  // ----- the invariant --------------------------------------------------------------------------------------

  /** The plugin was last attempted from its registration as it is, and its snapshot is what that attempt saw. */
  predicate Current(m: Manager, r: Registration) {
    r.id in m.snapshots
    && (r.available ==> r.id in m.attempts && m.attempts[r.id].registration == r
                        && m.snapshots[r.id] == Projected(r, m.attempts[r.id].inventory))
  }

  /** Every registration that is not pending is current, and what runs runs from its last attempt. */
  ghost predicate Settled(m: Manager) {
    && UniqueIds(m.regs) && RunningAreAttempts(m)
    && (!m.started ==> m.running == map[])
    && (m.started ==> m.snapshots.Keys == Ids(m.regs) && m.pending <= Ids(m.regs)
                      && forall r | r in m.regs && r.id !in m.pending :: Current(m, r))
  }

  /** The plugin's snapshot agrees with the inventory on every Device outside `dirty`. */
  ghost predicate Sees(m: Manager, r: Registration, inventory: Inventory, dirty: set<DeviceId>) {
    forall d | d !in dirty :: RowIn(Stored(m, r.id), d) == RowIn(Some(Projected(r, inventory)), d)
  }

  ghost predicate UpToDate(m: Manager, inventory: Inventory, dirty: set<DeviceId>) {
    m.started ==> forall r | r in m.regs && r.id !in m.pending :: Sees(m, r, inventory, dirty)
  }

  /** An untouched plugin's snapshot does not change in a narrowed comparison, whatever else drifted. */
  lemma MergeKeeps(previous: Option<Snapshot>, current: Snapshot, d: DeviceId)
    requires previous.Some? && !InventoryChanged(previous, current, Some(d))
    ensures Merged(previous, current, d) == previous.value
  {
  }

  /** A registration that is not restarted keeps its registration, its snapshot and its last attempt. */
  lemma UntouchedKeeps(m: Manager, regs: seq<Registration>, inventory: Inventory, changed: Option<DeviceId>, r: Registration)
    requires Settled(m) && m.started && UniqueIds(regs) && r in regs
    requires r.id !in Restarted(m, regs, inventory, changed)
    ensures r in m.regs && r.id !in m.pending
    ensures Current(Stopped(m, regs, inventory, changed), r) && Stored(Stopped(m, regs, inventory, changed), r.id) == Stored(m, r.id)
    ensures !InventoryChanged(Stored(m, r.id), Projected(r, inventory), changed)
  {
    FindMember(regs, r);
    assert r.id in Ids(regs);
    assert Find(m.regs, r.id) == Some(r);
    assert Current(m, r);
    if changed.Some? {
      MergeKeeps(Stored(m, r.id), Projected(r, inventory), changed.value);
    }
  }

  lemma StoppedSettled(m: Manager, regs: seq<Registration>, inventory: Inventory, changed: Option<DeviceId>)
    requires Settled(m) && m.started && UniqueIds(regs)
    ensures Settled(Stopped(m, regs, inventory, changed))
    ensures Stopped(m, regs, inventory, changed).running.Keys !! Restarted(m, regs, inventory, changed)
  {
    forall r | r in regs && r.id !in Restarted(m, regs, inventory, changed)
      ensures Current(Stopped(m, regs, inventory, changed), r)
    {
      UntouchedKeeps(m, regs, inventory, changed, r);
    }
  }

  /** What is restarted is stored as the inventory shows it. */
  lemma StoppedSees(m: Manager, regs: seq<Registration>, inventory: Inventory, changed: Option<DeviceId>, dirty: set<DeviceId>,
                    r: Registration)
    requires Settled(m) && m.started && UniqueIds(regs) && UpToDate(m, inventory, dirty) && r in regs
    ensures Sees(Stopped(m, regs, inventory, changed), r, inventory, if changed.Some? then dirty - {changed.value} else {})
  {
    FindMember(regs, r);
    assert r.id in Ids(regs);
    if r.id !in Restarted(m, regs, inventory, changed) {
      UntouchedKeeps(m, regs, inventory, changed, r);
      assert Sees(m, r, inventory, dirty);
    }
  }

  lemma InterruptedRuns(m: Manager, r: Registration)
    requires RunningAreAttempts(m) && r.id !in m.running
    ensures RunningAreAttempts(Interrupted(m, r))
  {
  }

  lemma StartedAllFrame(m: Manager, restart: set<PluginId>, succeeds: set<PluginId>, cancel: Cancel)
    requires UniqueIds(m.regs) && RunningAreAttempts(m) && restart == m.pending && restart <= Ids(m.regs)
    requires m.running.Keys !! restart
    ensures var t := StartedAll(m, restart, succeeds, cancel);
      t.started == m.started && t.snapshots == m.snapshots && t.regs == m.regs && t.pending <= m.pending
      && (!Hits(m, restart, cancel) ==> t.pending == {}) && RunningAreAttempts(t)
  {
    var n := if Hits(m, restart, cancel) then cancel.k else |m.regs|;
    StartedToEffect(m, restart, succeeds, n);
    StartedToRuns(m, restart, succeeds, n);
    if Hits(m, restart, cancel) {
      NotYetStarted(m, restart, succeeds, n);
      InterruptedRuns(StartedTo(m, restart, succeeds, n), m.regs[n]);
    } else {
      assert m.regs[..n] == m.regs;
    }
  }

  /** Starting makes current what it starts. */
  lemma StartedAllSettled(m: Manager, restart: set<PluginId>, succeeds: set<PluginId>, cancel: Cancel)
    requires Settled(m) && m.started && restart == m.pending
    requires m.running.Keys !! restart
    requires forall r | r in m.regs && r.id in restart :: m.snapshots[r.id] == Projected(r, m.inventory)
    ensures var t := StartedAll(m, restart, succeeds, cancel);
      Settled(t) && t.started && t.snapshots == m.snapshots && t.regs == m.regs && t.pending <= m.pending
      && (!Hits(m, restart, cancel) ==> t.pending == {})
  {
    var n := if Hits(m, restart, cancel) then cancel.k else |m.regs|;
    var t := StartedAll(m, restart, succeeds, cancel);
    StartedAllFrame(m, restart, succeeds, cancel);
    forall r | r in m.regs && r.id !in t.pending ensures Current(t, r) {
      StartedIsCurrent(m, restart, succeeds, cancel, n, r);
    }
  }

  lemma NotYetStarted(m: Manager, restart: set<PluginId>, succeeds: set<PluginId>, k: nat)
    requires k < |m.regs| && UniqueIds(m.regs) && RunningAreAttempts(m)
    requires m.regs[k].id in restart && m.regs[k].id in m.pending && m.running.Keys !! restart
    ensures m.regs[k].id !in StartedTo(m, restart, succeeds, k).running
    ensures m.regs[k].id in StartedTo(m, restart, succeeds, k).pending
  {
    StartedToEffect(m, restart, succeeds, k);
    StartedToRuns(m, restart, succeeds, k);
    assert m.regs[k].id !in Ids(m.regs[..k]);
  }

  lemma StartedIsCurrent(m: Manager, restart: set<PluginId>, succeeds: set<PluginId>, cancel: Cancel, n: nat, r: Registration)
    requires Settled(m) && m.started && restart == m.pending && r in m.regs
    requires m.running.Keys !! restart
    requires r.id in restart ==> m.snapshots[r.id] == Projected(r, m.inventory)
    requires n == if Hits(m, restart, cancel) then cancel.k else |m.regs|
    requires r.id !in StartedAll(m, restart, succeeds, cancel).pending
    ensures Current(StartedAll(m, restart, succeeds, cancel), r)
  {
    StartedToEffect(m, restart, succeeds, n);
    if Hits(m, restart, cancel) {
      NotYetStarted(m, restart, succeeds, n);
      assert r.id != m.regs[n].id;
    }
    if r.id in restart {
      assert r.id in Ids(m.regs[..n]);
      var i :| 0 <= i < n && m.regs[i].id == r.id;
      var j :| 0 <= j < |m.regs| && m.regs[j] == r;
      assert i == j;
    } else {
      assert Current(m, r);
    }
  }

  // ----- a reconcile keeps the invariant ----------------------------------------------------------------

  lemma StoppedStores(m: Manager, regs: seq<Registration>, inventory: Inventory, changed: Option<DeviceId>, r: Registration)
    requires UniqueIds(regs) && r in regs && r.id in Restarted(m, regs, inventory, changed)
    ensures var s := Stopped(m, regs, inventory, changed); r.id in s.snapshots && s.snapshots[r.id] == Projected(r, inventory)
  {
    FindMember(regs, r);
  }

  lemma ConfiguredStores(m: Manager, regs: seq<Registration>, inventory: Inventory, r: Registration)
    requires UniqueIds(regs) && r in regs
    ensures var c := Configured(m, regs, inventory); r.id in c.snapshots && c.snapshots[r.id] == Projected(r, inventory)
  {
    FindMember(regs, r);
    assert r.id in Ids(regs);
  }

  /** The first start as a start of everything from a manager in which everything is pending. */
  lemma FirstStartSettled(m: Manager, regs: seq<Registration>, inventory: Inventory, cancel: Cancel, succeeds: set<PluginId>)
    requires UniqueIds(regs)
    ensures var t := FirstStart(m, regs, inventory, cancel, succeeds);
      Settled(t) && UpToDate(t, inventory, {}) && t.pending == {} && t.regs == regs
      && (t.started <==> !Hits(Configured(m, regs, inventory), Ids(regs), cancel))
  {
    var c := Configured(m, regs, inventory);
    var restart := Ids(regs);
    var n := if Hits(c, restart, cancel) then cancel.k else |regs|;
    StartedToEffect(c, restart, succeeds, n);
    StartedToRuns(c, restart, succeeds, n);
    var t := FirstStart(m, regs, inventory, cancel, succeeds);
    if t.started {
      forall r | r in regs ensures Current(t, r) && Sees(t, r, inventory, {}) {
        ConfiguredStores(m, regs, inventory, r);
        assert r.id in restart;
      }
    }
  }

  /** A reconcile narrowed to one Device, or for all, makes that Device clean, whether or not it is cancelled. */
  lemma ReconciledSettled(m: Manager, regs: seq<Registration>, inventory: Inventory, changed: Option<DeviceId>,
                          cancel: Cancel, succeeds: set<PluginId>, dirty: set<DeviceId>)
    requires Settled(m) && UpToDate(m, inventory, dirty) && UniqueIds(regs)
    ensures var t := Reconciled(m, regs, inventory, changed, cancel, succeeds);
      Settled(t) && UpToDate(t, inventory, if changed.Some? then dirty - {changed.value} else {}) && t.regs == regs
      && (Completed(m, regs, inventory, changed, cancel) ==> t.started && t.pending == {})
  {
    if !m.started {
      FirstStartSettled(m, regs, inventory, cancel, succeeds);
    } else {
      var stopped := Stopped(m, regs, inventory, changed);
      StoppedSettled(m, regs, inventory, changed);
      forall r | r in regs
        ensures Sees(stopped, r, inventory, if changed.Some? then dirty - {changed.value} else {})
        ensures r.id in stopped.pending ==> stopped.snapshots[r.id] == Projected(r, inventory)
      {
        StoppedSees(m, regs, inventory, changed, dirty, r);
        if r.id in stopped.pending {
          StoppedStores(m, regs, inventory, changed, r);
        }
      }
      if !cancel.WhileStopping? {
        StartedAllSettled(stopped, stopped.pending, succeeds, cancel);
      }
    }
  }

  // ----- runs -----------------------------------------------------------------------------------------------------

  /** The stored inventory beside the manager; `dirty` are the Devices saved since the last reconcile that
      was for them (or for all) began. */
  datatype World = World(manager: Manager, inventory: Inventory, dirty: set<DeviceId>)

  datatype Action =
    | Save(id: DeviceId, device: Option<Device>)
    | Reconcile(regs: seq<Registration>, changed: Option<DeviceId>, cancel: Cancel, succeeds: set<PluginId>)

  function Next(w: World, a: Action): World {
    match a
    case Save(id, device) =>
      w.(inventory := if device.Some? then w.inventory[id := device.value] else w.inventory - {id}, dirty := w.dirty + {id})
    case Reconcile(regs, changed, cancel, succeeds) =>
      w.(manager := Reconciled(w.manager, regs, w.inventory, changed, cancel, succeeds),
         dirty := if changed.Some? then w.dirty - {changed.value} else {})
  }

  function After(w: World, run: seq<Action>): World
    decreases |run|
  {
    if run == [] then w else Next(After(w, run[..|run| - 1]), run[|run| - 1])
  }

  ghost predicate Tracks(w: World) {
    Settled(w.manager) && UpToDate(w.manager, w.inventory, w.dirty)
  }

  lemma SaveTracks(w: World, id: DeviceId, device: Option<Device>)
    requires Tracks(w)
    ensures Tracks(Next(w, Save(id, device)))
  {
    var w' := Next(w, Save(id, device));
    forall r | r in w.manager.regs && r.id !in w.manager.pending && w.manager.started
      ensures Sees(w.manager, r, w'.inventory, w'.dirty)
    {
      assert Sees(w.manager, r, w.inventory, w.dirty);
      forall d | d !in w'.dirty
        ensures RowIn(Some(Projected(r, w'.inventory)), d) == RowIn(Some(Projected(r, w.inventory)), d)
      {
        assert d != id;
      }
    }
  }

  predicate Valid(a: Action) {
    a.Reconcile? ==> UniqueIds(a.regs)
  }

  lemma {:induction false} RunTracks(w: World, run: seq<Action>)
    requires Tracks(w) && forall a | a in run :: Valid(a)
    ensures Tracks(After(w, run))
    decreases |run|
  {
    if run != [] {
      var n := |run| - 1;
      RunTracks(w, run[..n]);
      var before := After(w, run[..n]);
      match run[n]
      case Save(id, device) => SaveTracks(before, id, device);
      case Reconcile(regs, changed, cancel, succeeds) =>
        assert Valid(run[n]);
        ReconciledSettled(before.manager, regs, before.inventory, changed, cancel, succeeds, before.dirty);
    }
  }

  /** Once a reconcile for each saved Device has begun after its last save, and the last reconcile ran to its
      end, every available registered plugin was last attempted from its registration and from what the
      inventory now shows it, however many reconciles were cancelled before. */
  lemma ConvergenceTheorem(w: World, run: seq<Action>, last: Action)
    requires Tracks(w) && (forall a | a in run :: Valid(a)) && last.Reconcile? && Valid(last)
    requires var before := After(w, run);
      Completed(before.manager, last.regs, before.inventory, last.changed, last.cancel)
    requires After(w, run + [last]).dirty == {}
    ensures var end := After(w, run + [last]);
      && end.manager.started && end.manager.pending == {}
      && forall r | r in last.regs && r.available ::
           r.id in end.manager.attempts && end.manager.attempts[r.id].registration == r
           && Projected(r, end.manager.attempts[r.id].inventory) == Projected(r, end.inventory)
  {
    var before, end := After(w, run), After(w, run + [last]);
    assert (run + [last])[..|run|] == run;
    RunTracks(w, run);
    ReconciledSettled(before.manager, last.regs, before.inventory, last.changed, last.cancel, last.succeeds, before.dirty);
    forall r | r in last.regs && r.available
      ensures Current(end.manager, r) && end.manager.snapshots[r.id] == Projected(r, end.inventory)
    {
      assert Current(end.manager, r) && Sees(end.manager, r, end.inventory, {});
      SameRows(end.manager.snapshots[r.id], Projected(r, end.inventory));
    }
  }

  lemma SameRows(s: Snapshot, t: Snapshot)
    requires forall d :: RowIn(Some(s), d) == RowIn(Some(t), d)
    ensures s == t
  {
    forall d ensures d in s <==> d in t {
      assert RowIn(Some(s), d) == RowIn(Some(t), d);
    }
    forall d | d in s ensures s[d] == t[d] {
      assert RowIn(Some(s), d) == RowIn(Some(t), d);
    }
  }
}
