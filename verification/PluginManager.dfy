/** The plugin manager as an object.  Which starts succeed and where a cancellation hits are parameters. */
module PluginManagement {
  import opened Domain
  import opened PluginReconcile

  class PluginManager {
    var started: bool
    var regs: seq<Registration>
    var inventory: Inventory
    var running: map<PluginId, Attempt>
    var snapshots: map<PluginId, Snapshot>
    var pending: set<PluginId>
    ghost var attempts: map<PluginId, Attempt>

    ghost function State(): Manager
      reads this
    {
      Manager(started, regs, inventory, running, snapshots, pending, attempts)
    }

    constructor ()
      ensures State() == Manager(false, [], map[], map[], map[], {}, map[]) && Settled(State())
    {
      started, regs, inventory, running, snapshots, pending := false, [], map[], map[], map[], {};
      attempts := map[];
    }

    /** Starts one registration; a cancelled start leaves nothing running. */
    method StartRegistration(r: Registration, succeeds: bool)
      modifies this`running, this`attempts
      ensures attempts == if r.available then old(attempts)[r.id := Attempt(r, inventory)] else old(attempts)
      ensures running == if r.available && succeeds then old(running)[r.id := Attempt(r, inventory)] else old(running)
    {
      if !r.available {
        return;
      }
      attempts := attempts[r.id := Attempt(r, inventory)];
      if succeeds {
        running := running[r.id := Attempt(r, inventory)];
      }
    }

    /** Starts the registrations in `restart` one after the other, up to a cancellation. */
    method StartAll(restart: set<PluginId>, succeeds: set<PluginId>, cancel: Cancel) returns (cancelled: bool)
      modifies this`running, this`attempts, this`pending
      ensures State() == StartedAll(old(State()), restart, succeeds, cancel)
      ensures cancelled == Hits(old(State()), restart, cancel)
    {
      for i := 0 to |regs|
        invariant State() == StartedTo(old(State()), restart, succeeds, i)
        invariant Hits(old(State()), restart, cancel) ==> i <= cancel.k
      {
        var r := regs[i];
        if r.id in restart {
          if cancel == WhileStarting(i) && r.available {
            StartRegistration(r, false);
            return true;
          }
          StartRegistration(r, r.id in succeeds);
          pending := pending - {r.id};
        }
      }
      cancelled := false;
    }

    method Stop()
      modifies this`running, this`started
      ensures State() == old(State()).(started := false, running := map[])
    {
      running := map[];
      started := false;
    }

    /** Refused while plugins are running. */
    method Configure(newRegs: seq<Registration>, context: Inventory) returns (ok: bool)
      modifies this`regs, this`inventory, this`pending, this`snapshots
      ensures ok <==> !started && running == map[]
      ensures State() == if ok then Configured(old(State()), newRegs, context).(started := false) else old(State())
    {
      ok := !started && running == map[];
      if !ok {
        return;
      }
      regs := newRegs;
      inventory := context;
      pending := {};
      snapshots := map id | id in Ids(regs) :: Projected(Find(regs, id).value, context);
    }

    method Start(succeeds: set<PluginId>, cancel: Cancel)
      modifies this`started, this`running, this`attempts, this`pending
      ensures var s := StartedAll(old(State()).(started := true), Ids(regs), succeeds, cancel);
        State() == if old(started) then old(State())
                   else if Hits(old(State()), Ids(regs), cancel) then s.(started := false, running := map[]) else s
    {
      if started {
        return;
      }
      started := true;
      var cancelled := StartAll(Ids(regs), succeeds, cancel);
      if cancelled {
        Stop();
      }
    }

    /** The plugins to restart: those that differ from before, and those still pending. */
    method FindRestarts(newRegs: seq<Registration>, context: Inventory, changed: Option<DeviceId>)
      returns (restart: set<PluginId>)
      ensures restart == Restarted(State(), newRegs, context, changed)
    {
      restart := {};
      ghost var m := State();
      var todo := Ids(newRegs);
      while todo != {}
        invariant todo <= Ids(newRegs)
        invariant forall id | id in Ids(newRegs) && id !in todo :: id in restart <==> id in Restarted(m, newRegs, context, changed)
        invariant restart <= Ids(newRegs) - todo
      {
        var id :| id in todo;
        todo := todo - {id};
        var before, after := Find(regs, id), Find(newRegs, id);
        var stored := if id in snapshots then Some(snapshots[id]) else None;
        if before != after || InventoryChanged(stored, Projected(after.value, context), changed) || id in pending {
          restart := restart + {id};
        }
      }
    }

    /** Stops what is to be restarted or gone, and takes over the new registrations. */
    method StopChanged(newRegs: seq<Registration>, context: Inventory, changed: Option<DeviceId>) returns (restart: set<PluginId>)
      requires started
      modifies this`pending, this`running, this`snapshots, this`regs, this`inventory
      ensures State() == Stopped(old(State()), newRegs, context, changed) && restart == pending
    {
      restart := FindRestarts(newRegs, context, changed);
      AdvanceSnapshots(newRegs, context, changed, restart);
      running := map id | id in running && id in Ids(newRegs) && id !in restart :: running[id];
      pending := restart;
      regs := newRegs;
      inventory := context;
    }

    /** What is restarted is stored anew; elsewhere only the edited Device's row advances. */
    method AdvanceSnapshots(newRegs: seq<Registration>, context: Inventory, changed: Option<DeviceId>, restart: set<PluginId>)
      modifies this`snapshots
      ensures snapshots == NewSnapshots(old(State()), newRegs, context, changed, restart)
    {
      ghost var m := State();
      var todo := Ids(newRegs);
      var advanced: map<PluginId, Snapshot> := map[];
      while todo != {}
        invariant todo <= Ids(newRegs) && advanced.Keys == Ids(newRegs) - todo
        invariant forall id | id in advanced :: id in Ids(newRegs)
                    && advanced[id] == NewSnapshot(m, Find(newRegs, id).value, context, changed, restart)
      {
        var id :| id in todo;
        todo := todo - {id};
        var current := Projected(Find(newRegs, id).value, context);
        if id in restart || changed.None? {
          advanced := advanced[id := current];
        } else {
          advanced := advanced[id := Merged(if id in snapshots then Some(snapshots[id]) else None, current, changed.value)];
        }
      }
      snapshots := advanced;
    }

    /** Restarts only what changed for the given Device, what is new, and what is still pending. */
    method Reconcile(newRegs: seq<Registration>, context: Inventory, changed: Option<DeviceId>,
                     cancel: Cancel, succeeds: set<PluginId>)
      requires !started ==> running == map[]
      modifies this
      ensures State() == Reconciled(old(State()), newRegs, context, changed, cancel, succeeds)
    {
      if !started {
        var ok := Configure(newRegs, context);
        Start(succeeds, cancel);
        return;
      }
      var restart := StopChanged(newRegs, context, changed);
      if cancel.WhileStopping? {
        return;
      }
      var _ := StartAll(restart, succeeds, cancel);
    }
  }
}
