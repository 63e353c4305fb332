/** What the paged recovery scan sees of the database, and what recovering one row does to it. */
module RecoveryRows {
  import opened Domain
  import opened Store
  import opened Lifecycle
  import opened Footprints
  import opened Invariants
  import opened CrashRecovery
  import RecoveryScan

  /** The rows of the recovery query, by the ingress time it orders by. */
  function PendingRows(db: Db): set<RecoveryScan.Row> {
    set k | k in db.events && db.events[k].Pending() :: RecoveryScan.Row(db.events[k].IngressOrTimestamp(), k)
  }

  /** The same rows by source timestamp, as the backfill pass orders them. */
  function TimestampRows(db: Db): set<RecoveryScan.Row> {
    set k | k in db.events && db.events[k].Pending() :: RecoveryScan.Row(db.events[k].timestamp, k)
  }

  function Ids(rows: seq<RecoveryScan.Row>): (ids: seq<Key>)
    ensures |ids| == |rows| && forall i | 0 <= i < |ids| :: ids[i] == rows[i].id
  {
    seq(|rows|, i requires 0 <= i < |rows| => rows[i].id)
  }

  /** Recovering a pending Event takes exactly its row out of the result set. */
  lemma RecoverTakesRow(c: Core, k: Key, fallback: int)
    requires Consistent(c.db) && k in c.db.events && c.db.events[k].Pending() && 1 <= fallback
    ensures var db' := Recover(c, k, fallback).db;
      Consistent(db') && db'.events.Keys == c.db.events.Keys
      && PendingRows(db') == PendingRows(c.db) - {RecoveryScan.Row(c.db.events[k].IngressOrTimestamp(), k)}
  {
    RecoverSettles(c, k, fallback);
    RecoverConsistent(c, k, fallback);
    var db, db' := c.db, Recover(c, k, fallback).db;
    var row := RecoveryScan.Row(db.events[k].IngressOrTimestamp(), k);
    forall r | r in PendingRows(db') ensures r in PendingRows(db) && r != row {
      assert r.id != k;
    }
    forall r | r in PendingRows(db) && r != row ensures r in PendingRows(db') {
      assert r.id != k;
    }
  }

  lemma RecoverConsistent(c: Core, k: Key, fallback: int)
    requires Consistent(c.db) && k in c.db.events && c.db.events[k].Pending()
    ensures Consistent(Recover(c, k, fallback).db)
  {
    var x := RecoveryCorrelation(c, k, fallback);
    ReceiptsOnlyConsistent(c.db, x.core.db);
    CorrelationConsistent(x, |CorrelationProgram(x)|);
  }

  /** Backfilling changes which Receipts are linked and nothing the scan by timestamp sees. */
  lemma BackfillKeepsRows(c: Core, k: Key)
    requires Consistent(c.db) && k in c.db.events
    ensures var db' := AfterBackfill(c, k).db;
      Consistent(db') && db'.events.Keys == c.db.events.Keys && TimestampRows(db') == TimestampRows(c.db)
      && !CanBackfill(db'.events[k]) && forall j | j in c.db.events && j != k :: db'.events[j] == c.db.events[j]
  {
    var db' := AfterBackfill(c, k).db;
    ReceiptsOnlyConsistent(c.db, db');
    forall r ensures r in TimestampRows(db') <==> r in TimestampRows(c.db) {
      assert r.id in c.db.events ==> db'.events[r.id].Pending() == c.db.events[r.id].Pending();
    }
  }

  /** Backfilling a list of Events, one after the other. */
  function BackfillAll(c: Core, order: seq<Key>): Core
    decreases |order|
  {
    if order == [] then c
    else
      var k := order[|order| - 1];
      var before := BackfillAll(c, order[..|order| - 1]);
      if k in before.db.events then AfterBackfill(before, k) else before
  }

  lemma {:induction false} RecoverAllConcat(c: Core, a: seq<Key>, b: seq<Key>, fallback: int)
    ensures RecoverAll(c, a + b, fallback) == RecoverAll(RecoverAll(c, a, fallback), b, fallback)
    decreases |b|
  {
    if b == [] {
      assert a + b == a;
    } else {
      RecoverAllConcat(c, a, b[..|b| - 1], fallback);
      assert (a + b)[..|a + b| - 1] == a + b[..|b| - 1];
    }
  }

  lemma {:induction false} BackfillAllConcat(c: Core, a: seq<Key>, b: seq<Key>)
    ensures BackfillAll(c, a + b) == BackfillAll(BackfillAll(c, a), b)
    decreases |b|
  {
    if b == [] {
      assert a + b == a;
    } else {
      BackfillAllConcat(c, a, b[..|b| - 1]);
      assert (a + b)[..|a + b| - 1] == a + b[..|b| - 1];
    }
  }

  lemma PendingRowsAreUnique(db: Db)
    ensures RecoveryScan.UniqueIds(PendingRows(db)) && RecoveryScan.UniqueIds(TimestampRows(db))
  {
  }

  /** No row left means nothing pending. */
  lemma NoRowsNothingPending(db: Db)
    requires PendingRows(db) == {}
    ensures NothingPending(db)
  {
    forall k | k in db.events ensures !db.events[k].Pending() {
      assert RecoveryScan.Row(db.events[k].IngressOrTimestamp(), k) !in PendingRows(db);
    }
  }

  /** The listed Events have nothing left to backfill, and no Event gained anything to backfill. */
  ghost predicate BackfilledSince(db: Db, db': Db, rows: seq<RecoveryScan.Row>) {
    && db'.events.Keys == db.events.Keys
    && (forall r | r in rows && r.id in db'.events :: !CanBackfill(db'.events[r.id]))
    && (forall k | k in db.events && !CanBackfill(db.events[k]) :: !CanBackfill(db'.events[k]))
  }

  /** No pending Event has a Receipt left that could be linked. */
  ghost predicate NothingToBackfill(db: Db) {
    forall k | k in db.events && db.events[k].Pending() :: !CanBackfill(db.events[k])
  }

  // ----- one page ---------------------------------------------------------------------------------

  /** The first `n` rows of the page have been recovered. */
  ghost predicate PageUnderWay(c: Core, now: Core, rows: seq<RecoveryScan.Row>, n: nat, fallback: int)
    requires n <= |rows|
  {
    && now == RecoverAll(c, Ids(rows[..n]), fallback) && Consistent(now.db)
    && PendingRows(now.db) == PendingRows(c.db) - set r | r in rows[..n]
  }

  lemma PageGoesOn(c: Core, now: Core, rows: seq<RecoveryScan.Row>, n: nat, fallback: int)
    requires n < |rows| && 1 <= fallback && PageUnderWay(c, now, rows, n, fallback)
    requires (forall r | r in rows :: r in PendingRows(c.db)) && forall i, j | 0 <= i < j < |rows| :: rows[i] != rows[j]
    ensures rows[n].id in now.db.events && now.db.events[rows[n].id].Pending()
    ensures PageUnderWay(c, Recover(now, rows[n].id, fallback), rows, n + 1, fallback)
  {
    RowIsStillPending(c, now, rows, n, fallback);
    RecoverTakesRow(now, rows[n].id, fallback);
    assert rows[..n + 1] == rows[..n] + [rows[n]];
    RecoverAllNext(c, rows, n, fallback);
  }

  lemma RowIsStillPending(c: Core, now: Core, rows: seq<RecoveryScan.Row>, n: nat, fallback: int)
    requires n < |rows| && PageUnderWay(c, now, rows, n, fallback)
    requires (forall r | r in rows :: r in PendingRows(c.db)) && forall i, j | 0 <= i < j < |rows| :: rows[i] != rows[j]
    ensures rows[n].id in now.db.events && now.db.events[rows[n].id].Pending()
    ensures rows[n] == RecoveryScan.Row(now.db.events[rows[n].id].IngressOrTimestamp(), rows[n].id)
  {
    assert rows[n] in rows && rows[n] !in rows[..n];
    assert rows[n] in PendingRows(now.db);
  }

  lemma RecoverAllNext(c: Core, rows: seq<RecoveryScan.Row>, n: nat, fallback: int)
    requires n < |rows| && rows[n].id in RecoverAll(c, Ids(rows[..n]), fallback).db.events
    ensures RecoverAll(c, Ids(rows[..n + 1]), fallback) == Recover(RecoverAll(c, Ids(rows[..n]), fallback), rows[n].id, fallback)
  {
    var ids := Ids(rows[..n + 1]);
    assert ids[..n] == Ids(rows[..n]) && ids[n] == rows[n].id;
  }

  /** The first `n` rows of the page have been backfilled. */
  ghost predicate BackfillPageUnderWay(c: Core, now: Core, page: seq<RecoveryScan.Row>, n: nat)
    requires n <= |page|
  {
    && now == BackfillAll(c, Ids(page[..n])) && Consistent(now.db)
    && TimestampRows(now.db) == TimestampRows(c.db) && BackfilledSince(c.db, now.db, page[..n])
  }

  lemma BackfillAllNext(c: Core, page: seq<RecoveryScan.Row>, n: nat)
    requires n < |page| && page[n].id in BackfillAll(c, Ids(page[..n])).db.events
    ensures BackfillAll(c, Ids(page[..n + 1])) == AfterBackfill(BackfillAll(c, Ids(page[..n])), page[n].id)
  {
    var ids := Ids(page[..n + 1]);
    assert ids[..n] == Ids(page[..n]) && ids[n] == page[n].id;
  }

  lemma BackfillPageGoesOn(c: Core, now: Core, page: seq<RecoveryScan.Row>, n: nat)
    requires n < |page| && BackfillPageUnderWay(c, now, page, n) && forall r | r in page :: r in TimestampRows(c.db)
    ensures page[n].id in now.db.events && BackfillPageUnderWay(c, AfterBackfill(now, page[n].id), page, n + 1)
  {
    assert page[n] in TimestampRows(now.db);
    BackfillKeepsRows(now, page[n].id);
    BackfillAllNext(c, page, n);
    BackfilledSinceNext(c.db, now.db, AfterBackfill(now, page[n].id).db, page, n);
  }

  lemma BackfilledSinceNext(db: Db, now: Db, next: Db, page: seq<RecoveryScan.Row>, n: nat)
    requires n < |page| && BackfilledSince(db, now, page[..n]) && next.events.Keys == now.events.Keys
    requires page[n].id in next.events && !CanBackfill(next.events[page[n].id])
    requires forall j | j in now.events && j != page[n].id :: next.events[j] == now.events[j]
    ensures BackfilledSince(db, next, page[..n + 1])
  {
    assert page[..n + 1] == page[..n] + [page[n]];
  }

  // ----- the paging loops -----------------------------------------------------------------------------

  lemma IdsConcat(a: seq<RecoveryScan.Row>, b: seq<RecoveryScan.Row>)
    ensures Ids(a + b) == Ids(a) + Ids(b)
  {
  }

  /** The pages behind `cursors` have been backfilled; the result set is what it was. */
  ghost predicate BackfillUnderWay(q: Time -> int, c: Core, now: Core, visited: seq<RecoveryScan.Row>, cursors: seq<RecoveryScan.Row>) {
    && Consistent(now.db) && TimestampRows(now.db) == TimestampRows(c.db)
    && RecoveryScan.UnderWay(q, TimestampRows(c.db), TimestampRows(c.db), visited, cursors)
    && now == BackfillAll(c, Ids(visited)) && BackfilledSince(c.db, now.db, visited)
  }

  lemma BackfillGoesOn(q: Time -> int, c: Core, now: Core, next: Core, visited: seq<RecoveryScan.Row>, cursors: seq<RecoveryScan.Row>,
                       limit: nat, page: seq<RecoveryScan.Row>)
    requires RecoveryScan.Monotone(q) && BackfillUnderWay(q, c, now, visited, cursors) && page != []
    requires RecoveryScan.IsPage(q, TimestampRows(now.db), RecoveryScan.Cursor(cursors), limit, page)
    requires next == BackfillAll(now, Ids(page)) && Consistent(next.db) && TimestampRows(next.db) == TimestampRows(now.db)
    requires BackfilledSince(now.db, next.db, page)
    ensures BackfillUnderWay(q, c, next, visited + page, cursors + [RecoveryScan.NextCursor(page, false)])
    ensures |RecoveryScan.Remaining(q, TimestampRows(c.db), Some(RecoveryScan.NextCursor(page, false)))|
            < |RecoveryScan.Remaining(q, TimestampRows(c.db), RecoveryScan.Cursor(cursors))|
  {
    RecoveryScan.OnePage(q, TimestampRows(c.db), TimestampRows(c.db), visited, cursors, limit, page, false, TimestampRows(c.db));
    IdsConcat(visited, page);
    BackfillAllConcat(c, Ids(visited), Ids(page));
  }

  /** Once a page is empty every pending row has been visited. */
  lemma AllVisited(q: Time -> int, rows: set<RecoveryScan.Row>, pending: set<RecoveryScan.Row>, visited: seq<RecoveryScan.Row>,
                   cursors: seq<RecoveryScan.Row>, limit: nat)
    requires RecoveryScan.UnderWay(q, rows, pending, visited, cursors) && limit > 0
    requires RecoveryScan.IsPage(q, pending, RecoveryScan.Cursor(cursors), limit, [])
    ensures forall r | r in rows :: r in visited
  {
  }

  lemma VisitedIsBackfilled(c: Core, now: Core, visited: seq<RecoveryScan.Row>)
    requires BackfilledSince(c.db, now.db, visited) && TimestampRows(now.db) == TimestampRows(c.db)
    requires forall r | r in TimestampRows(c.db) :: r in visited
    ensures NothingToBackfill(now.db)
  {
    forall k | k in now.db.events && now.db.events[k].Pending() ensures !CanBackfill(now.db.events[k]) {
      assert RecoveryScan.Row(now.db.events[k].timestamp, k) in TimestampRows(c.db);
    }
  }

  lemma BackfillDone(q: Time -> int, c: Core, now: Core, visited: seq<RecoveryScan.Row>, cursors: seq<RecoveryScan.Row>, limit: nat)
    requires BackfillUnderWay(q, c, now, visited, cursors) && limit > 0
    requires RecoveryScan.IsPage(q, TimestampRows(now.db), RecoveryScan.Cursor(cursors), limit, [])
    ensures now == BackfillAll(c, Ids(visited)) && Consistent(now.db)
    ensures NothingToBackfill(now.db)
  {
    AllVisited(q, TimestampRows(c.db), TimestampRows(c.db), visited, cursors, limit);
    VisitedIsBackfilled(c, now, visited);
  }

  /** The pages behind `cursors` have been recovered, and have left the result set. */
  ghost predicate RecoverUnderWay(q: Time -> int, c: Core, now: Core, visited: seq<RecoveryScan.Row>, cursors: seq<RecoveryScan.Row>,
                                  fallback: int) {
    && Consistent(now.db)
    && RecoveryScan.UnderWay(q, PendingRows(c.db), PendingRows(now.db), visited, cursors)
    && (forall r | r in PendingRows(now.db) :: r !in visited)
    && now == RecoverAll(c, Ids(visited), fallback)
  }

  lemma RecoverGoesOn(q: Time -> int, c: Core, now: Core, next: Core, visited: seq<RecoveryScan.Row>, cursors: seq<RecoveryScan.Row>,
                      limit: nat, page: seq<RecoveryScan.Row>, fallback: int)
    requires RecoveryScan.Monotone(q) && RecoverUnderWay(q, c, now, visited, cursors, fallback) && page != []
    requires RecoveryScan.IsPage(q, PendingRows(now.db), RecoveryScan.Cursor(cursors), limit, page)
    requires next == RecoverAll(now, Ids(RecoveryScan.SortedByTime(page)), fallback) && Consistent(next.db)
    requires PendingRows(next.db) == PendingRows(now.db) - set r | r in RecoveryScan.SortedByTime(page)
    ensures RecoverUnderWay(q, c, next, visited + RecoveryScan.SortedByTime(page),
                            cursors + [RecoveryScan.NextCursor(page, true)], fallback)
    ensures |RecoveryScan.Remaining(q, PendingRows(c.db), Some(RecoveryScan.NextCursor(page, true)))|
            < |RecoveryScan.Remaining(q, PendingRows(c.db), RecoveryScan.Cursor(cursors))|
  {
    RecoveryScan.SortedByTimeInOrder(page);
    RecoveryScan.OnePage(q, PendingRows(c.db), PendingRows(now.db), visited, cursors, limit, page, true, PendingRows(next.db));
    IdsConcat(visited, RecoveryScan.SortedByTime(page));
    RecoverAllConcat(c, Ids(visited), Ids(RecoveryScan.SortedByTime(page)), fallback);
  }

  lemma SortedDistinct(q: Time -> int, page: seq<RecoveryScan.Row>)
    requires forall i, j | 0 <= i < j < |page| :: RecoveryScan.Before(q, page[i], page[j])
    ensures forall i, j | 0 <= i < j < |RecoveryScan.SortedByTime(page)| ::
              RecoveryScan.SortedByTime(page)[i] != RecoveryScan.SortedByTime(page)[j]
    ensures forall r :: r in RecoveryScan.SortedByTime(page) <==> r in page
  {
    RecoveryScan.SortedByTimeInOrder(page);
    DistinctPermutation(page, RecoveryScan.SortedByTime(page));
  }

  lemma DistinctPermutation(s: seq<RecoveryScan.Row>, t: seq<RecoveryScan.Row>)
    requires multiset(s) == multiset(t) && forall i, j | 0 <= i < j < |s| :: s[i] != s[j]
    ensures forall i, j | 0 <= i < j < |t| :: t[i] != t[j]
  {
    forall i, j | 0 <= i < j < |t| ensures t[i] != t[j] {
      if t[i] == t[j] {
        TwiceCounts(t, i, j);
        OnceCounts(s, t[i]);
      }
    }
  }

  lemma TwiceCounts(t: seq<RecoveryScan.Row>, i: int, j: int)
    requires 0 <= i < j < |t| && t[i] == t[j]
    ensures multiset(t)[t[i]] >= 2
  {
    assert t == t[..j] + [t[j]] + t[j + 1..];
    assert t[i] == t[..j][i] && t[i] in t[..j];
    assert multiset(t) == multiset(t[..j]) + multiset{t[j]} + multiset(t[j + 1..]);
  }

  lemma {:induction false} OnceCounts(s: seq<RecoveryScan.Row>, x: RecoveryScan.Row)
    requires forall i, j | 0 <= i < j < |s| :: s[i] != s[j]
    ensures multiset(s)[x] <= 1
  {
    if s != [] {
      OnceCounts(s[1..], x);
      assert s == [s[0]] + s[1..];
      assert multiset(s) == multiset{s[0]} + multiset(s[1..]);
      assert s[0] !in s[1..];
      assert multiset(s[1..])[s[0]] == 0;
    }
  }
}
