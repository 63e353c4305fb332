/** The paged startup scan over pending Events.  A page is cut by a query that sees times at a coarser
    precision than memory does, is sorted again in memory, and its last row in that order is the cursor
    of the next page, while processed rows leave the result set. */
module RecoveryScan {
  import opened Domain

  datatype Row = Row(time: Time, id: Key)

  /** How precisely the query compares times; it never reorders them. */
  ghost predicate Monotone(q: Time -> int) {
    forall a, b | a <= b :: q(a) <= q(b)
  }

  ghost predicate UniqueIds(rows: set<Row>) {
    forall a, b | a in rows && b in rows && a.id == b.id :: a == b
  }

  /** The order of the query. */
  predicate Before(q: Time -> int, a: Row, b: Row) {
    q(a.time) < q(b.time) || (q(a.time) == q(b.time) && a.id < b.id)
  }

  predicate Beyond(q: Time -> int, cursor: Option<Row>, r: Row) {
    cursor.Some? ==> Before(q, cursor.value, r)
  }

  function Remaining(q: Time -> int, rows: set<Row>, cursor: Option<Row>): set<Row> {
    set r | r in rows && Beyond(q, cursor, r)
  }

  /** The first `limit` pending rows beyond the cursor, in the order of the query. */
  ghost predicate IsPage(q: Time -> int, pending: set<Row>, cursor: Option<Row>, limit: nat, page: seq<Row>) {
    && (forall i, j | 0 <= i < j < |page| :: Before(q, page[i], page[j]))
    && (forall r | r in page :: r in pending && Beyond(q, cursor, r))
    && |page| <= limit
    && (forall r | r in pending && Beyond(q, cursor, r) && r !in page ::
          |page| == limit && forall p | p in page :: Before(q, p, r))
  }

  method FirstOf(q: Time -> int, rows: set<Row>) returns (first: Row)
    requires rows != {} && UniqueIds(rows)
    ensures first in rows && forall r | r in rows && r != first :: Before(q, first, r)
  {
    first :| first in rows;
    var rest := rows - {first};
    while rest != {}
      invariant rest <= rows && first in rows
      invariant forall r | r in rows && r !in rest && r != first :: Before(q, first, r)
    {
      var r :| r in rest;
      rest := rest - {r};
      if Before(q, r, first) {
        first := r;
      }
    }
  }

  method ListPage(q: Time -> int, pending: set<Row>, cursor: Option<Row>, limit: nat) returns (page: seq<Row>)
    requires UniqueIds(pending)
    ensures IsPage(q, pending, cursor, limit, page)
  {
    page := [];
    var rest := Remaining(q, pending, cursor);
    while |page| < limit && rest != {}
      invariant rest <= Remaining(q, pending, cursor)
      invariant forall i, j | 0 <= i < j < |page| :: Before(q, page[i], page[j])
      invariant forall r | r in page :: r in pending && Beyond(q, cursor, r)
      invariant |page| <= limit
      invariant forall r | r in pending && Beyond(q, cursor, r) && r !in page :: r in rest
      invariant forall p, r | p in page && r in rest :: Before(q, p, r)
      decreases |rest|
    {
      var first := FirstOf(q, rest);
      rest := rest - {first};
      page := page + [first];
    }
  }

  // ----- the order in memory --------------------------------------------------------------------

  predicate Earlier(a: Row, b: Row) {
    a.time < b.time || (a.time == b.time && a.id <= b.id)
  }

  ghost predicate InOrder(s: seq<Row>) {
    forall i, j | 0 <= i < j < |s| :: Earlier(s[i], s[j])
  }

  function Inserted(s: seq<Row>, r: Row): (t: seq<Row>)
    ensures multiset(t) == multiset(s) + multiset{r}
  {
    if s == [] || Earlier(r, s[0]) then [r] + s
    else
      assert s == [s[0]] + s[1..];
      [s[0]] + Inserted(s[1..], r)
  }

  lemma {:induction false} InsertedInOrder(s: seq<Row>, r: Row)
    requires InOrder(s)
    ensures InOrder(Inserted(s, r))
  {
    if s != [] && !Earlier(r, s[0]) {
      InsertedInOrder(s[1..], r);
      forall x | x in Inserted(s[1..], r) ensures Earlier(s[0], x) {
        assert x in multiset(Inserted(s[1..], r));
        assert x in s[1..] || x == r;
      }
    }
  }

  function SortedByTime(s: seq<Row>): (t: seq<Row>)
    ensures multiset(t) == multiset(s)
  {
    if s == [] then []
    else
      assert s == s[..|s| - 1] + [s[|s| - 1]];
      Inserted(SortedByTime(s[..|s| - 1]), s[|s| - 1])
  }

  lemma {:induction false} SortedByTimeInOrder(s: seq<Row>)
    ensures InOrder(SortedByTime(s)) && |SortedByTime(s)| == |s|
    ensures forall r :: r in SortedByTime(s) <==> r in s
  {
    if s != [] {
      SortedByTimeInOrder(s[..|s| - 1]);
      InsertedInOrder(SortedByTime(s[..|s| - 1]), s[|s| - 1]);
    }
    assert |multiset(SortedByTime(s))| == |multiset(s)|;
    assert forall r :: r in SortedByTime(s) <==> r in multiset(SortedByTime(s));
  }

  // ----- the scan ---------------------------------------------------------------------------------

  /** Rows are visited in the order of the query's times. */
  ghost predicate Ascending(q: Time -> int, visited: seq<Row>) {
    forall i, j | 0 <= i < j < |visited| :: q(visited[i].time) <= q(visited[j].time)
  }

  /** Whatever is not visited yet is still pending and lies beyond the cursor. */
  ghost predicate Covered(q: Time -> int, rows: set<Row>, pending: set<Row>, cursor: Option<Row>, visited: seq<Row>) {
    forall r | r in rows && r !in visited :: r in pending && Beyond(q, cursor, r)
  }

  /** The cursor a page leaves is one of its rows. */
  function NextCursor(page: seq<Row>, inMemory: bool): (last: Row)
    requires page != []
    ensures last in page
  {
    if inMemory then
      SortedByTimeInOrder(page);
      SortedByTime(page)[|page| - 1]
    else page[|page| - 1]
  }

  /** Every page ends at or before its last row by the query, and after the cursor it started from. */
  lemma CursorMoves(q: Time -> int, pending: set<Row>, cursor: Option<Row>, limit: nat, page: seq<Row>, inMemory: bool)
    requires IsPage(q, pending, cursor, limit, page) && page != []
    ensures var last := NextCursor(page, inMemory);
      Beyond(q, cursor, last) && (last == page[|page| - 1] || Before(q, last, page[|page| - 1]))
  {
    var last := NextCursor(page, inMemory);
    var k :| 0 <= k < |page| && page[k] == last;
  }

  lemma RemainingShrinks(q: Time -> int, rows: set<Row>, cursor: Option<Row>, last: Row)
    requires last in rows && Beyond(q, cursor, last)
    ensures |Remaining(q, rows, Some(last))| < |Remaining(q, rows, cursor)|
  {
    assert last in Remaining(q, rows, cursor) && last !in Remaining(q, rows, Some(last));
    assert Remaining(q, rows, Some(last)) <= Remaining(q, rows, cursor) - {last};
    SubsetSize(Remaining(q, rows, Some(last)), Remaining(q, rows, cursor) - {last});
  }

  /** Rows beyond the page are beyond its cursor. */
  lemma PageCovers(q: Time -> int, rows: set<Row>, pending: set<Row>, cursor: Option<Row>, limit: nat,
                   page: seq<Row>, inMemory: bool, visited: seq<Row>)
    requires IsPage(q, pending, cursor, limit, page) && page != [] && Covered(q, rows, pending, cursor, visited)
    ensures forall r | r in rows && r !in visited && r !in page ::
              r in pending && Beyond(q, Some(NextCursor(page, inMemory)), r)
  {
    CursorMoves(q, pending, cursor, limit, page, inMemory);
  }

  lemma AscendingConcat(q: Time -> int, v: seq<Row>, w: seq<Row>)
    requires Ascending(q, v) && Ascending(q, w)
    requires forall a, b | a in v && b in w :: q(a.time) <= q(b.time)
    ensures Ascending(q, v + w)
  {
    var all := v + w;
    forall i, j | 0 <= i < j < |all| ensures q(all[i].time) <= q(all[j].time) {
      if i < |v| && |v| <= j {
        assert all[i] in v && all[j] in w;
      }
    }
  }

  lemma LastIsNewest(q: Time -> int, order: seq<Row>)
    requires order != [] && Ascending(q, order)
    ensures forall r | r in order :: q(r.time) <= q(order[|order| - 1].time)
  {
    forall r | r in order ensures q(r.time) <= q(order[|order| - 1].time) {
      var i :| 0 <= i < |order| && order[i] == r;
    }
  }

  /** The rows of a page in the order they are processed. */
  function Order(page: seq<Row>, inMemory: bool): seq<Row> {
    if inMemory then SortedByTime(page) else page
  }

  lemma OrderAscends(q: Time -> int, page: seq<Row>, inMemory: bool)
    requires Monotone(q) && forall i, j | 0 <= i < j < |page| :: Before(q, page[i], page[j])
    ensures Ascending(q, Order(page, inMemory)) && |Order(page, inMemory)| == |page|
    ensures forall r :: r in Order(page, inMemory) <==> r in page
  {
    SortedByTimeInOrder(page);
  }

  /** Nothing visited lies after the cursor. */
  ghost predicate Behind(q: Time -> int, visited: seq<Row>, cursor: Option<Row>) {
    Ascending(q, visited) && forall v | v in visited :: cursor.Some? && q(v.time) <= q(cursor.value.time)
  }

  lemma PageAscends(q: Time -> int, pending: set<Row>, cursor: Option<Row>, limit: nat, page: seq<Row>,
                    inMemory: bool, visited: seq<Row>)
    requires Monotone(q) && IsPage(q, pending, cursor, limit, page) && page != [] && Behind(q, visited, cursor)
    ensures Behind(q, visited + Order(page, inMemory), Some(NextCursor(page, inMemory)))
  {
    var order := Order(page, inMemory);
    OrderAscends(q, page, inMemory);
    CursorMoves(q, pending, cursor, limit, page, inMemory);
    LastIsNewest(q, order);
    AscendingConcat(q, visited, order);
  }

  /** Where the scan stands after the pages behind `cursors`. */
  ghost predicate UnderWay(q: Time -> int, rows: set<Row>, pending: set<Row>, visited: seq<Row>, cursors: seq<Row>) {
    && pending <= rows
    && Covered(q, rows, pending, Cursor(cursors), visited) && Behind(q, visited, Cursor(cursors))
    && (forall r | r in visited :: r in rows)
    && (forall i, j | 0 <= i < j < |cursors| :: Before(q, cursors[i], cursors[j]))
  }

  function Cursor(cursors: seq<Row>): Option<Row> {
    if cursors == [] then None else Some(cursors[|cursors| - 1])
  }

  lemma OnePage(q: Time -> int, rows: set<Row>, pending: set<Row>, visited: seq<Row>, cursors: seq<Row>,
                limit: nat, page: seq<Row>, inMemory: bool, rest: set<Row>)
    requires Monotone(q) && UnderWay(q, rows, pending, visited, cursors)
    requires IsPage(q, pending, Cursor(cursors), limit, page) && page != []
    requires rest <= pending && forall r | r in pending && r !in page :: r in rest
    ensures UnderWay(q, rows, rest, visited + Order(page, inMemory), cursors + [NextCursor(page, inMemory)])
    ensures |Remaining(q, rows, Some(NextCursor(page, inMemory)))| < |Remaining(q, rows, Cursor(cursors))|
  {
    var last := NextCursor(page, inMemory);
    OrderAscends(q, page, inMemory);
    CursorMoves(q, pending, Cursor(cursors), limit, page, inMemory);
    PageCovers(q, rows, pending, Cursor(cursors), limit, page, inMemory, visited);
    PageAscends(q, pending, Cursor(cursors), limit, page, inMemory, visited);
    RemainingShrinks(q, rows, Cursor(cursors), last);
    assert Cursor(cursors + [last]) == Some(last);
  }

  /** The scan ends, its cursor only moves forward, and it visits every row that was pending when it
      started, in ingress order as far as the query can tell.  `kept` says which rows of each page
      processing leaves in the result set. */
  method Scan(q: Time -> int, rows: set<Row>, limit: nat, inMemory: bool, kept: seq<set<Row>>)
    returns (visited: seq<Row>, cursors: seq<Row>)
    requires limit > 0 && UniqueIds(rows) && Monotone(q)
    ensures forall r :: r in rows <==> r in visited
    ensures forall i, j | 0 <= i < j < |cursors| :: Before(q, cursors[i], cursors[j])
    ensures Ascending(q, visited)
  {
    visited, cursors := [], [];
    var pending := rows;
    while true
      invariant UnderWay(q, rows, pending, visited, cursors)
      decreases |Remaining(q, rows, Cursor(cursors))|
    {
      var page := ListPage(q, pending, Cursor(cursors), limit);
      if page == [] {
        return;
      }
      var stays := if |cursors| < |kept| then kept[|cursors|] else {};
      var rest := pending - set r | r in page && r !in stays;
      OnePage(q, rows, pending, visited, cursors, limit, page, inMemory, rest);
      pending := rest;
      visited := visited + Order(page, inMemory);
      cursors := cursors + [NextCursor(page, inMemory)];
    }
  }
}
