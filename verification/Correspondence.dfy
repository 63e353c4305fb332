/** Whole engine calls are runs of the protocol. */
module Correspondence {
  import opened Domain
  import opened RecoveryRows
  import opened Store
  import opened Lifecycle
  import opened Protocol
  import opened Invariants
  import opened CrashRecovery

  function IngestSteps(d: Delivery): seq<Step> {
    [Do(Begin(d))] + ((if d.receipt.Some? then [Do(LinkFlight(d.key))] else []) + ([Do(SettleFlight(d.key))] + []))
  }

  /** Ingesting a first delivery is canonicalizing it, linking its Receipt and correlating it. */
  lemma IngestIsRun(s: Sys, d: Delivery, fallback: int)
    requires s.phase.Running? && d.Valid() && d.key !in s.core.db.events && d.area !in s.flights
    ensures Behaves(s, IngestSteps(d))
    ensures After(s, IngestSteps(d)) == s.(core := Ingest(s.core, d, fallback))
  {
    var s1 := Next(s, Begin(d));
    assert FlightOf(s1, d.key) == Flight(d.key, d.at, d.window, d.receipt);
    var tail := [Do(SettleFlight(d.key))] + [];
    if d.receipt.Some? {
      SettleIsStep(Next(s1, LinkFlight(d.key)), s, d);
      AfterCons(s1, Do(LinkFlight(d.key)), tail);
    } else {
      SettleIsStep(s1, s, d);
      assert [] + tail == tail;
    }
    AfterCons(s, Do(Begin(d)), (if d.receipt.Some? then [Do(LinkFlight(d.key))] else []) + tail);
  }

  lemma SettleIsStep(s: Sys, before: Sys, d: Delivery)
    requires s.phase.Running? && s.core == Canonicalized(before.core, d) && d.key !in before.core.db.events
    requires s.flights == before.flights[d.area := Flight(d.key, d.at, d.window, None)] && d.area !in before.flights
    requires s.phase == before.phase
    ensures Behaves(s, [Do(SettleFlight(d.key))] + [])
    ensures After(s, [Do(SettleFlight(d.key))] + []) == before.(core := Ingest(before.core, d, 0))
  {
    var s' := Next(s, SettleFlight(d.key));
    assert s'.flights == before.flights;
    AfterCons(s, Do(SettleFlight(d.key)), []);
  }

  /** A redelivery that finds its Area free is one step. */
  lemma RedeliveryIsStep(s: Sys, d: Delivery, fallback: int)
    requires Enabled(s, RedeliverKnown(d, fallback))
    ensures Next(s, RedeliverKnown(d, fallback)) == s.(core := Ingest(s.core, d, fallback))
  {
  }

  function CloseSteps(ids: seq<EpisodeId>, at: Time): seq<Step> {
    if ids == [] then [] else [Do(CloseFinalized(ids[0], at))] + CloseSteps(ids[1..], at)
  }

  /** Closing the Episodes whose finalizers succeeded is one close step for each of them. */
  lemma {:induction false} CloseReadyIsRun(s: Sys, ids: seq<EpisodeId>, at: Time)
    requires s.phase.Running? && !s.core.defer
    requires forall i | 0 <= i < |ids| :: ids[i] < |s.core.db.episodes| && s.core.db.episodes[ids[i]].state.Finalizing?
    requires forall i, j | 0 <= i < j < |ids| :: ids[i] != ids[j]
    ensures Behaves(s, CloseSteps(ids, at))
    ensures After(s, CloseSteps(ids, at)) == s.(core := CloseReady(s.core, (set id | id in ids), at))
    decreases |ids|
  {
    if ids == [] {
      assert ClosedRows(s.core.db.episodes, {}, at) == s.core.db.episodes;
    } else {
      var s' := Next(s, CloseFinalized(ids[0], at));
      CloseReadyIsRun(s', ids[1..], at);
      AfterCons(s, Do(CloseFinalized(ids[0], at)), CloseSteps(ids[1..], at));
      ClosedRowsStep(s.core.db, ids, at);
    }
  }

  lemma ClosedRowsStep(db: Db, ids: seq<EpisodeId>, at: Time)
    requires ids != [] && ids[0] < |db.episodes| && db.episodes[ids[0]].state.Finalizing?
    ensures ClosedRows(Apply(db, MarkClosed(ids[0], at)).episodes, (set id | id in ids[1..]), at)
            == ClosedRows(db.episodes, (set id | id in ids), at)
  {
    assert forall id :: id in ids <==> id == ids[0] || id in ids[1..];
  }

  // ----- the recovery scan ----------------------------------------------------------------------

  /** Recovering the Events in the order the paged scan visits them settles every pending one. */
  method ScanThenRecover(s: Sys, q: Time -> int, limit: nat, kept: seq<set<RecoveryScan.Row>>)
    returns (order: seq<Key>)
    requires Sound(s) && s.phase.Recovering? && limit > 0 && RecoveryScan.Monotone(q)
    ensures Behaves(s, RecoverySteps(order))
    ensures NothingPending(After(s, RecoverySteps(order)).core.db)
  {
    var rows := PendingRows(s.core.db);
    var visited, cursors := RecoveryScan.Scan(q, rows, limit, true, kept);
    order := Ids(visited);
    forall k | k in s.core.db.events && s.core.db.events[k].Pending() ensures k in order {
      var row := RecoveryScan.Row(s.core.db.events[k].IngressOrTimestamp(), k);
      assert row in rows;
      var i :| 0 <= i < |visited| && visited[i] == row;
      assert order[i] == k;
    }
    forall k | k in order ensures k in s.core.db.events {
      var i :| 0 <= i < |order| && order[i] == k;
      assert visited[i] in rows;
    }
    RecoveryCompletes(s, order);
  }
}
