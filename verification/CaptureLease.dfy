/** Capture leases as the recorder merges them.  Times are on the recorder's monotonic clock; the wall
    clock deadline of a message is taken at a fixed offset from it. */
module CaptureLease {
  import opened Domain

  datatype Message = Message(arrival: Time, revision: int, until: Time)

  datatype Lease = Lease(revision: int, deadline: Time)
  {
    predicate Expired(now: Time) {
      now > deadline
    }
  }

  /** A message never shortens what is left below nothing, and only a newer revision shortens a lease. */
  function Merged(held: Option<Lease>, m: Message): Lease {
    var local := m.arrival + Max(0, m.until - m.arrival);
    if held.Some? && m.revision < held.value.revision then held.value
    else if held.Some? && m.revision == held.value.revision then
      Lease(m.revision, Max(held.value.deadline, local))
    else Lease(m.revision, local)
  }

  function Held(ms: seq<Message>): Option<Lease> {
    if ms == [] then None else Some(Merged(Held(ms[..|ms| - 1]), ms[|ms| - 1]))
  }

  /** No message has a higher revision. */
  predicate Newest(ms: seq<Message>, m: Message) {
    forall x | x in ms :: x.revision <= m.revision
  }

  /** What every message says, without when or how often it arrived. */
  function Terms(ms: seq<Message>): set<(int, Time)> {
    set m | m in ms :: (m.revision, m.until)
  }

  /** The lease carries the highest revision, and lasts as long as any message of it, clamped to its arrival. */
  lemma {:induction false} HeldIsNewest(ms: seq<Message>)
    requires ms != []
    ensures var l := Held(ms).value;
      && (forall m | m in ms :: m.revision <= l.revision)
      && (forall m | m in ms && m.revision == l.revision :: Max(m.arrival, m.until) <= l.deadline)
      && (exists m :: m in ms && m.revision == l.revision && Max(m.arrival, m.until) == l.deadline)
  {
    var n := |ms| - 1;
    assert ms == ms[..n] + [ms[n]];
    assert ms[n] in ms;
    if n > 0 {
      HeldIsNewest(ms[..n]);
      var l, l' := Held(ms[..n]).value, Held(ms).value;
      var w :| w in ms[..n] && w.revision == l.revision && Max(w.arrival, w.until) == l.deadline;
      assert w in ms;
      var witness' := if l' == Lease(ms[n].revision, Max(ms[n].arrival, ms[n].until)) then ms[n] else w;
      assert witness' in ms && witness'.revision == l'.revision && Max(witness'.arrival, witness'.until) == l'.deadline;
    } else {
      assert forall m | m in ms :: m == ms[0];
    }
  }

  /** Every message of the highest revision lies in the past. */
  predicate AllPast(ms: seq<Message>, now: Time) {
    forall m | m in ms && Newest(ms, m) :: m.until < now
  }

  /** After the last arrival the verdict is decided by the latest deadline of the highest revision. */
  lemma VerdictTheorem(ms: seq<Message>, now: Time)
    requires ms != [] && forall m | m in ms :: m.arrival < now
    ensures Held(ms).value.Expired(now) <==> AllPast(ms, now)
  {
    HeldIsNewest(ms);
    var l := Held(ms).value;
    var w :| w in ms && w.revision == l.revision && Max(w.arrival, w.until) == l.deadline;
    assert Newest(ms, w);
    assert forall m | m in ms && Newest(ms, m) :: m.revision == l.revision;
  }

  /** Reordering and repeating messages changes no verdict after the last arrival. */
  lemma OrderDoesNotMatter(ms: seq<Message>, ns: seq<Message>, now: Time)
    requires ms != [] && Terms(ms) == Terms(ns)
    requires (forall m | m in ms :: m.arrival < now) && (forall n | n in ns :: n.arrival < now)
    ensures ns != [] && Held(ms).value.Expired(now) == Held(ns).value.Expired(now)
  {
    assert (ms[0].revision, ms[0].until) in Terms(ns);
    if AllPast(ms, now) {
      SameNewest(ms, ns, now);
    }
    if AllPast(ns, now) {
      SameNewest(ns, ms, now);
    }
    VerdictTheorem(ms, now);
    VerdictTheorem(ns, now);
  }

  lemma SameNewest(ms: seq<Message>, ns: seq<Message>, now: Time)
    requires Terms(ms) == Terms(ns) && AllPast(ms, now)
    ensures AllPast(ns, now)
  {
    forall n | n in ns && Newest(ns, n) ensures n.until < now {
      assert (n.revision, n.until) in Terms(ms);
      var m :| m in ms && (m.revision, m.until) == (n.revision, n.until);
      forall x | x in ms ensures x.revision <= m.revision {
        assert (x.revision, x.until) in Terms(ns);
        var y :| y in ns && (y.revision, y.until) == (x.revision, x.until);
      }
      assert Newest(ms, m);
    }
  }
}
