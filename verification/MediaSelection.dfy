/** The video sources of one Device and its default among them.  Three places choose a fallback: registering,
    unregistering and reading; the invariant says why they agree. */
module MediaSelection {
  import opened Domain

  type SourceId = string

  const MAX_SOURCES := 64

  /** A registered media endpoint: its identity, what it can do, and who registered it. */
  datatype Source = Source(
    id: SourceId, name: string, plugin: string, streams: bool, handles: bool, preferred: bool, snapshot: bool)
  {
    /** It can give the recorder bytes. */
    predicate Usable() {
      streams || handles
    }
  }

  /** Sources in registration order. */
  datatype Entry = Entry(sources: seq<Source>, default: Option<SourceId>)

  datatype Choice = Choice(source: Source, default: bool)

  function Find(ss: seq<Source>, id: SourceId): (found: Option<Source>)
    ensures found.Some? ==> found.value in ss && found.value.id == id
    ensures found.None? ==> forall s | s in ss :: s.id != id
  {
    if ss == [] then None
    else if ss[0].id == id then Some(ss[0])
    else
      assert ss == [ss[0]] + ss[1..];
      Find(ss[1..], id)
  }

  /** A source with a known id takes the place of the old one. */
  function Put(ss: seq<Source>, s: Source): seq<Source> {
    if ss == [] then [s] else if ss[0].id == s.id then [s] + ss[1..] else [ss[0]] + Put(ss[1..], s)
  }

  function FirstPreferred(ss: seq<Source>): (first: Option<SourceId>)
    ensures first.Some? ==> exists s :: s in ss && s.id == first.value && s.preferred && s.Usable()
    ensures first.None? ==> forall s | s in ss :: !(s.preferred && s.Usable())
  {
    if ss == [] then None
    else if ss[0].preferred && ss[0].Usable() then Some(ss[0].id)
    else
      assert ss == [ss[0]] + ss[1..];
      FirstPreferred(ss[1..])
  }

  function FirstUsable(ss: seq<Source>): (first: Option<SourceId>)
    ensures first.Some? ==> exists s :: s in ss && s.id == first.value && s.Usable()
    ensures first.None? ==> forall s | s in ss :: !s.Usable()
  {
    if ss == [] then None
    else if ss[0].Usable() then Some(ss[0].id)
    else
      assert ss == [ss[0]] + ss[1..];
      FirstUsable(ss[1..])
  }

  /** The fallback: the first preferred usable source, or the first usable one. */
  function Automatic(ss: seq<Source>): (id: Option<SourceId>)
    ensures id.Some? <==> exists s :: s in ss && s.Usable()
    ensures id.Some? ==> exists s :: s in ss && s.id == id.value && s.Usable()
  {
    if FirstPreferred(ss).Some? then FirstPreferred(ss) else FirstUsable(ss)
  }

  predicate DefaultUsable(ss: seq<Source>, id: SourceId) {
    Find(ss, id).Some? && Find(ss, id).value.Usable()
  }

  // ----- operations -----------------------------------------------------------------------------

  predicate Refused(e: Entry, s: Source) {
    Find(e.sources, s.id).None? && |e.sources| >= MAX_SOURCES
  }

  function Registered(e: Entry, s: Source): Entry {
    if Refused(e, s) then e
    else
      var ss := Put(e.sources, s);
      var default :=
        if s.preferred && s.Usable() then Some(s.id)
        else if e.default.None? then Some(s.id)
        else if !DefaultUsable(ss, e.default.value) && Automatic(ss).Some? then Automatic(ss)
        else e.default;
      Entry(ss, default)
  }

  function Keep(ss: seq<Source>, plugin: Option<string>): (kept: seq<Source>)
    ensures forall s :: s in kept <==> s in ss && plugin.Some? && s.plugin != plugin.value
  {
    if ss == [] then []
    else
      assert ss == [ss[0]] + ss[1..];
      if plugin.None? || ss[0].plugin == plugin.value then Keep(ss[1..], plugin)
      else [ss[0]] + Keep(ss[1..], plugin)
  }

  function Unregistered(e: Entry, plugin: Option<string>): Entry {
    var kept := Keep(e.sources, plugin);
    if kept == [] then Entry([], None)
    else if e.default.Some? && Find(e.sources, e.default.value).Some? && Find(kept, e.default.value).None? then
      Entry(kept, Automatic(kept))
    else Entry(kept, e.default)
  }

  /** What an automatic selection returns, and what it leaves stored. */
  function Selected(e: Entry): (Option<Source>, Entry) {
    var stored := if e.default.Some? then Find(e.sources, e.default.value) else None;
    if stored.Some? && (stored.value.Usable() || Automatic(e.sources).None?) then (stored, e)
    else
      var id := Automatic(e.sources);
      if id.Some? then (Find(e.sources, id.value), e.(default := id))
      else (if e.sources == [] then None else Some(e.sources[0]), e)
  }

  // ----- the invariant ------------------------------------------------------------------------------

  predicate DistinctIds(ss: seq<Source>) {
    forall i, j | 0 <= i < j < |ss| :: ss[i].id != ss[j].id
  }

  predicate AnyUsable(ss: seq<Source>) {
    exists s :: s in ss && s.Usable()
  }

  /** The default, if any, is registered, and it is usable as soon as anything is. */
  predicate Coherent(e: Entry) {
    && DistinctIds(e.sources)
    && (e.default.Some? ==> Find(e.sources, e.default.value).Some?)
    && (AnyUsable(e.sources) ==> e.default.Some? && DefaultUsable(e.sources, e.default.value))
  }

  lemma FindUnique(ss: seq<Source>, s: Source)
    requires DistinctIds(ss) && s in ss
    ensures Find(ss, s.id) == Some(s)
  {
    var f := Find(ss, s.id).value;
    var i :| 0 <= i < |ss| && ss[i] == s;
    var j :| 0 <= j < |ss| && ss[j] == f;
  }

  lemma {:induction false} PutFinds(ss: seq<Source>, s: Source)
    ensures forall id :: Find(Put(ss, s), id) == if id == s.id then Some(s) else Find(ss, id)
    ensures |Put(ss, s)| == |ss| + if Find(ss, s.id).Some? then 0 else 1
  {
    if ss != [] {
      if ss[0].id == s.id {
        assert ([s] + ss[1..])[1..] == ss[1..];
      } else {
        PutFinds(ss[1..], s);
        assert ([ss[0]] + Put(ss[1..], s))[1..] == Put(ss[1..], s);
      }
    }
  }

  lemma {:induction false} PutHolds(ss: seq<Source>, s: Source)
    requires DistinctIds(ss)
    ensures DistinctIds(Put(ss, s))
    ensures forall x :: x in Put(ss, s) <==> x == s || (x in ss && x.id != s.id)
  {
    if ss != [] {
      var rest := ss[1..];
      assert ss == [ss[0]] + rest;
      if ss[0].id == s.id {
        assert Put(ss, s) == [s] + rest;
        assert forall x | x in rest :: x.id != s.id;
      } else {
        PutHolds(rest, s);
        assert Put(ss, s) == [ss[0]] + Put(rest, s);
        assert forall x | x in Put(rest, s) :: x.id != ss[0].id;
      }
    }
  }

  /** What registering stores. */
  lemma PutEffect(ss: seq<Source>, s: Source)
    requires DistinctIds(ss)
    ensures DistinctIds(Put(ss, s)) && |Put(ss, s)| == |ss| + if Find(ss, s.id).Some? then 0 else 1
    ensures forall id :: Find(Put(ss, s), id) == if id == s.id then Some(s) else Find(ss, id)
    ensures forall x :: x in Put(ss, s) <==> x == s || (x in ss && x.id != s.id)
  {
    PutFinds(ss, s);
    PutHolds(ss, s);
  }

  lemma {:induction false} KeepDistinct(ss: seq<Source>, plugin: Option<string>)
    requires DistinctIds(ss)
    ensures DistinctIds(Keep(ss, plugin))
  {
    if ss != [] {
      KeepDistinct(ss[1..], plugin);
      assert forall x | x in Keep(ss[1..], plugin) :: x in ss[1..] && x.id != ss[0].id;
    }
  }

  lemma AutomaticIsUsable(ss: seq<Source>)
    requires DistinctIds(ss) && AnyUsable(ss)
    ensures Automatic(ss).Some? && DefaultUsable(ss, Automatic(ss).value)
  {
    var s :| s in ss && s.id == Automatic(ss).value && s.Usable();
    FindUnique(ss, s);
  }

  /** Registering keeps the default coherent. */
  lemma RegisterCoherent(e: Entry, s: Source)
    requires Coherent(e)
    ensures Coherent(Registered(e, s))
  {
    if !Refused(e, s) {
      var ss := Put(e.sources, s);
      PutEffect(e.sources, s);
      if AnyUsable(ss) {
        AutomaticIsUsable(ss);
        NothingUsableBefore(e, s);
      } else {
        assert Automatic(ss).None?;
      }
    }
  }

  /** Without a default, only the new source can be usable. */
  lemma NothingUsableBefore(e: Entry, s: Source)
    requires Coherent(e) && AnyUsable(Put(e.sources, s))
    ensures e.default.None? ==> s.Usable()
  {
    PutEffect(e.sources, s);
    var u :| u in Put(e.sources, s) && u.Usable();
  }

  /** Unregistering a plugin's sources, or all, keeps the default coherent. */
  lemma UnregisterCoherent(e: Entry, plugin: Option<string>)
    requires Coherent(e)
    ensures Coherent(Unregistered(e, plugin))
  {
    var kept := Keep(e.sources, plugin);
    KeepDistinct(e.sources, plugin);
    if AnyUsable(kept) {
      AutomaticIsUsable(kept);
      var u :| u in kept && u.Usable();
      assert u in e.sources;
    }
    if e.default.Some? && Find(kept, e.default.value).Some? {
      FindUnique(e.sources, Find(kept, e.default.value).value);
    }
    if kept != [] && Automatic(kept).Some? {
      assert AnyUsable(kept);
    }
  }

  /** Under the invariant reading never repairs anything: it returns the default whenever some source is
      usable, and some source whenever one is registered. */
  lemma SelectionTheorem(e: Entry)
    requires Coherent(e)
    ensures Selected(e).1 == e
    ensures AnyUsable(e.sources) ==> e.default.Some? && Selected(e).0 == Find(e.sources, e.default.value)
                                     && Selected(e).0.value.Usable()
    ensures Selected(e).0.Some? <==> e.sources != []
    ensures Selected(e).0.Some? ==> Selected(e).0.value in e.sources
  {
    if AnyUsable(e.sources) {
      AutomaticIsUsable(e.sources);
    }
  }

  /** A usable default stays while no preferred source is registered and it is not itself replaced or removed. */
  lemma DefaultIsSticky(e: Entry, s: Source, plugin: string)
    requires Coherent(e) && AnyUsable(e.sources)
    ensures !(s.preferred && s.Usable()) && s.id != e.default.value ==> Registered(e, s).default == e.default
    ensures Find(e.sources, e.default.value).value.plugin != plugin ==> Unregistered(e, Some(plugin)).default == e.default
  {
    PutEffect(e.sources, s);
    var d := Find(e.sources, e.default.value).value;
    if d.plugin != plugin {
      var kept := Keep(e.sources, Some(plugin));
      assert d in kept;
      KeepDistinct(e.sources, Some(plugin));
      FindUnique(kept, d);
    }
  }

  // ----- the listing ------------------------------------------------------------------------------------

  /** Strings in dictionary order. */
  predicate AtMost(a: string, b: string) {
    a == "" || (b != "" && (a[0] < b[0] || (a[0] == b[0] && AtMost(a[1..], b[1..]))))
  }

  lemma {:induction false} AtMostTotal(a: string, b: string)
    ensures AtMost(a, b) || AtMost(b, a)
  {
    if a != "" && b != "" && a[0] == b[0] {
      AtMostTotal(a[1..], b[1..]);
    }
  }

  /** The default first, then by name and id. */
  predicate Precedes(a: Choice, b: Choice) {
    if a.default != b.default then a.default
    else if a.source.name != b.source.name then AtMost(a.source.name, b.source.name)
    else AtMost(a.source.id, b.source.id)
  }

  function Inserted(cs: seq<Choice>, c: Choice): (r: seq<Choice>)
    ensures multiset(r) == multiset(cs) + multiset{c}
  {
    if cs == [] || Precedes(c, cs[0]) then [c] + cs
    else
      assert cs == [cs[0]] + cs[1..];
      [cs[0]] + Inserted(cs[1..], c)
  }

  /** The usable sources with the default marked. */
  function Choices(ss: seq<Source>, default: Option<SourceId>): seq<Choice> {
    if ss == [] then []
    else
      var rest := Choices(ss[..|ss| - 1], default);
      var s := ss[|ss| - 1];
      if s.Usable() then rest + [Choice(s, default == Some(s.id))] else rest
  }

  function Sorted(cs: seq<Choice>): (r: seq<Choice>)
    ensures multiset(r) == multiset(cs)
  {
    if cs == [] then []
    else
      assert cs == cs[..|cs| - 1] + [cs[|cs| - 1]];
      Inserted(Sorted(cs[..|cs| - 1]), cs[|cs| - 1])
  }

  function Listing(e: Entry): seq<Choice> {
    Sorted(Choices(e.sources, e.default))
  }

  predicate Ordered(cs: seq<Choice>) {
    forall i | 0 <= i < |cs| - 1 :: Precedes(cs[i], cs[i + 1])
  }

  lemma {:induction false} InsertedOrdered(cs: seq<Choice>, c: Choice)
    requires Ordered(cs)
    ensures Ordered(Inserted(cs, c))
    ensures Inserted(cs, c)[0] == c || (cs != [] && Inserted(cs, c)[0] == cs[0])
  {
    if cs != [] && !Precedes(c, cs[0]) {
      AtMostTotal(c.source.name, cs[0].source.name);
      AtMostTotal(c.source.id, cs[0].source.id);
      assert Ordered(cs[1..]);
      InsertedOrdered(cs[1..], c);
    }
  }

  lemma {:induction false} SortedOrdered(cs: seq<Choice>)
    ensures Ordered(Sorted(cs))
  {
    if cs != [] {
      SortedOrdered(cs[..|cs| - 1]);
      InsertedOrdered(Sorted(cs[..|cs| - 1]), cs[|cs| - 1]);
    }
  }

  /** In an ordered list the marked choices come first. */
  lemma {:induction false} MarkedFirst(cs: seq<Choice>, k: nat)
    requires Ordered(cs) && k < |cs| && cs[k].default
    ensures cs[0].default
    decreases k
  {
    if k > 0 {
      assert Precedes(cs[k - 1], cs[k]);
      MarkedFirst(cs, k - 1);
    }
  }

  lemma {:induction false} ChoicesMembers(ss: seq<Source>, default: Option<SourceId>)
    ensures forall c :: c in Choices(ss, default) <==> c.source in ss && c.source.Usable() && c.default == (default == Some(c.source.id))
    ensures DistinctIds(ss) ==> forall i, j | 0 <= i < j < |Choices(ss, default)| ::
              Choices(ss, default)[i].source.id != Choices(ss, default)[j].source.id
  {
    if ss != [] {
      var rest := ss[..|ss| - 1];
      assert ss == rest + [ss[|ss| - 1]];
      ChoicesMembers(rest, default);
      if DistinctIds(ss) {
        assert forall c | c in Choices(rest, default) :: c.source in rest && c.source.id != ss[|ss| - 1].id;
      }
    }
  }

  /** The listing shows exactly the usable sources, in order, the default first and alone marked. */
  lemma ListingTheorem(e: Entry)
    requires Coherent(e)
    ensures Ordered(Listing(e)) && multiset(Listing(e)) == multiset(Choices(e.sources, e.default))
    ensures forall c :: c in Listing(e) <==> c.source in e.sources && c.source.Usable() && c.default == (e.default == Some(c.source.id))
    ensures AnyUsable(e.sources) ==> Listing(e) != [] && Listing(e)[0].default
                                     && Some(Listing(e)[0].source) == Find(e.sources, e.default.value)
    ensures forall c, d | c in Listing(e) && d in Listing(e) && c.default && d.default :: c == d
  {
    var all := Listing(e);
    SortedOrdered(Choices(e.sources, e.default));
    ChoicesMembers(e.sources, e.default);
    assert forall c :: c in all <==> c in multiset(all);
    forall c, d | c in all && d in all && c.default && d.default ensures c == d {
      FindUnique(e.sources, c.source);
      FindUnique(e.sources, d.source);
    }
    if AnyUsable(e.sources) {
      var d := Choice(Find(e.sources, e.default.value).value, true);
      assert d in all;
      var k :| 0 <= k < |all| && all[k] == d;
      MarkedFirst(all, k);
      assert all[0] in all;
    }
  }

  // ----- runs over all Devices ---------------------------------------------------------------------------

  type DeviceId = string

  type Registry = map<DeviceId, Entry>

  datatype Action =
    | Register(device: DeviceId, source: Source)
    | Unregister(device: DeviceId, plugin: Option<string>)
    | Read(device: DeviceId)

  function EntryOf(r: Registry, d: DeviceId): Entry {
    if d in r then r[d] else Entry([], None)
  }

  function Next(r: Registry, a: Action): Registry {
    match a
    case Register(d, s) => r[d := Registered(EntryOf(r, d), s)]
    case Unregister(d, p) => r[d := Unregistered(EntryOf(r, d), p)]
    case Read(d) => r[d := Selected(EntryOf(r, d)).1]
  }

  function After(r: Registry, run: seq<Action>): Registry
    decreases |run|
  {
    if run == [] then r else Next(After(r, run[..|run| - 1]), run[|run| - 1])
  }

  /** The run without its reads. */
  function Writes(run: seq<Action>): seq<Action> {
    if run == [] then []
    else Writes(run[..|run| - 1]) + if run[|run| - 1].Read? then [] else [run[|run| - 1]]
  }

  /** Every Device stays coherent whatever is registered, unregistered and read. */
  lemma {:induction false} AlwaysCoherent(r: Registry, run: seq<Action>, d: DeviceId)
    requires forall x :: Coherent(EntryOf(r, x))
    ensures Coherent(EntryOf(After(r, run), d))
    decreases |run|
  {
    if run != [] {
      var before := After(r, run[..|run| - 1]);
      var a := run[|run| - 1];
      AlwaysCoherent(r, run[..|run| - 1], d);
      AlwaysCoherent(r, run[..|run| - 1], a.device);
      match a
      case Register(x, s) => RegisterCoherent(EntryOf(before, x), s);
      case Unregister(x, p) => UnregisterCoherent(EntryOf(before, x), p);
      case Read(x) => SelectionTheorem(EntryOf(before, x));
    }
  }

  /** Although reading may store a repaired default, it never has to: no read has any effect. */
  lemma {:induction false} ReadsAreInert(r: Registry, run: seq<Action>, d: DeviceId)
    requires forall x :: Coherent(EntryOf(r, x))
    ensures EntryOf(After(r, run), d) == EntryOf(After(r, Writes(run)), d)
    decreases |run|
  {
    if run != [] {
      var rest, a := run[..|run| - 1], run[|run| - 1];
      ReadsAreInert(r, rest, d);
      ReadsAreInert(r, rest, a.device);
      if a.Read? {
        AlwaysCoherent(r, rest, a.device);
        SelectionTheorem(EntryOf(After(r, rest), a.device));
        assert Writes(run) == Writes(rest);
      } else {
        assert Writes(run)[..|Writes(run)| - 1] == Writes(rest);
      }
    }
  }
}
