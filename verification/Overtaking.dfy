/** A redelivery that overtakes its first delivery.  The lock a delivery holds is that of the Area its Device
    has then, so once the Device has moved a redelivery can enter while the first delivery still waits to
    correlate, and resume the correlation of the same Event. */
module Overtaking {
  import opened Domain
  import opened Store
  import opened Lifecycle
  import opened Protocol
  import opened Footprints
  import opened Invariants

  /** The redelivery agrees with its Event, which still waits for an Episode or an attachment. */
  predicate Resumes(s: Sys, a: Action) {
    && a.RedeliverKnown? && a.d.key in s.core.db.events
    && !a.d.Conflicts(s.core.db.events[a.d.key]) && s.core.db.events[a.d.key].Pending()
  }

  /** It does so with an Event that may drive capture, while the first delivery is in flight. */
  predicate Overtakes(s: Sys, a: Action) {
    Resumes(s, a) && InFlight(s, a.d.key) && s.core.db.events[a.d.key].Drives()
  }

  /** No step of the run overtakes a delivery. */
  ghost predicate NoOvertaking(s: Sys, steps: seq<Step>)
    requires Behaves(s, steps)
    decreases |steps|
  {
    steps == [] || ((steps[0].Do? ==> !Overtakes(s, steps[0].action)) && NoOvertaking(Take(s, steps[0]), steps[1..]))
  }

  /** Recovering a pending Event leaves a mark on the Event or on the rows. */
  lemma RecoverMarks(c: Core, k: Key, fallback: int)
    requires k in c.db.events && c.db.events[k].Pending()
    ensures !ReceiptsOnly(c.db, Recover(c, k, fallback).db)
    ensures c.db.events[k].Drives() ==> k in Recover(c, k, fallback).db.events && Recover(c, k, fallback).db.events[k].episode.Some?
  {
    var x := RecoveryCorrelation(c, k, fallback);
    var p := SettleProgram(x.core, k, x.at, x.window, true);
    if c.db.events[k].Drives() {
      var target := Target(x.core, k, x.at, true);
      if target.Some? {
        JoinPrefix(x.core.db, k, target.value, x.at, x.window, |p|);
      } else {
        CreatePrefix(x.core.db, k, x.at, x.window, 4);
      }
    } else {
      AttachPrefix(x.core, k, x.at, true, |p|);
    }
  }

  /** A redelivery commits nothing but Receipt links exactly when it conflicts or its Event is not pending. */
  lemma RedeliveryInertExactly(s: Sys, a: Action)
    requires Enabled(s, a) && a.RedeliverKnown?
    ensures ReceiptsOnly(s.core.db, Next(s, a).core.db) <==> !Resumes(s, a)
    ensures !Resumes(s, a) ==> !CorrelationOf(s, a).runs && Next(s, a) == s.(core := AfterReceipt(s.core, a.d))
  {
    if Resumes(s, a) {
      RecoverMarks(AfterReceipt(s.core, a.d), a.d.key, a.fallback);
    }
  }

  // ----- lock holders -----------------------------------------------------------------------------------

  /** No lock holder that may drive capture has an Episode yet. */
  ghost predicate Fresh(s: Sys) {
    forall a | a in s.flights && s.flights[a].key in s.core.db.events && s.core.db.events[s.flights[a].key].Drives() ::
      s.core.db.events[s.flights[a].key].episode.None?
  }

  /** Every step keeps lock holders fresh, except one that overtakes. */
  lemma FreshExactly(s: Sys, step: Step)
    requires Sound(s) && Fresh(s) && StepEnabled(s, step)
    ensures Fresh(Take(s, step)) <==> !(step.Do? && Overtakes(s, step.action))
  {
    if step.Do? {
      var a := step.action;
      if Overtakes(s, a) {
        OvertakenIsLinked(s, a);
      } else if Correlates(a) {
        CorrelatingKeepsFresh(s, a);
      } else if a.AddEvidence? || a.PlaceEvidence? {
        EvidencePrefix(s.core.db, Program(s, a), |Program(s, a)|);
      } else {
        OtherKeepsFresh(s, a);
      }
    }
  }

  lemma OvertakenIsLinked(s: Sys, a: Action)
    requires Sound(s) && Enabled(s, a) && Overtakes(s, a)
    ensures var s' := Next(s, a);
      InFlight(s', a.d.key) && s'.core.db.events[a.d.key].Drives() && s'.core.db.events[a.d.key].episode.Some?
  {
    CorrelationKeepsKinds(s, a);
    RecoverMarks(AfterReceipt(s.core, a.d), a.d.key, a.fallback);
  }

  lemma CorrelatingKeepsFresh(s: Sys, a: Action)
    requires Sound(s) && Fresh(s) && Enabled(s, a) && Correlates(a) && !Overtakes(s, a)
    ensures Fresh(Next(s, a))
  {
    CorrelationKeepsKinds(s, a);
    OthersUnlinked(s, a);
    forall b | b in Next(s, a).flights ensures Next(s, a).flights[b] == s.flights[b] {
    }
  }

  /** A correlating step links no Event in flight but its own. */
  lemma OthersUnlinked(s: Sys, a: Action)
    requires Sound(s) && Enabled(s, a) && Correlates(a) && !Overtakes(s, a)
    ensures forall j | InFlight(s, j) && s.core.db.events[j].Drives() && a != SettleFlight(j) ::
              j in Next(s, a).core.db.events && Next(s, a).core.db.events[j].episode == s.core.db.events[j].episode
  {
    var x := CorrelationOf(s, a);
    RunsCorrelatable(s, a);
    CorrelationTouchesOnly(s, a);
    forall j | InFlight(s, j) && s.core.db.events[j].Drives() && a != SettleFlight(j)
      ensures j in Next(s, a).core.db.events && Next(s, a).core.db.events[j].episode == s.core.db.events[j].episode
    {
      assert x.core.db.events[j].episode == s.core.db.events[j].episode;
      assert x.runs ==> j != x.key;
    }
  }

  lemma OtherKeepsFresh(s: Sys, a: Action)
    requires Sound(s) && Fresh(s) && Enabled(s, a) && !Correlates(a) && !a.AddEvidence? && !a.PlaceEvidence?
    ensures Fresh(Next(s, a))
  {
  }
}
