/** What registering, unregistering, reading and listing a Device's sources leave and return, said of positions in
    the list of sources. */
module MediaOutcomes {
  import opened Domain
  import opened MediaSelection

  /** The first source of the list with a property has this id. */
  ghost predicate FirstWith(ss: seq<Source>, has: Source -> bool, id: SourceId) {
    exists i :: 0 <= i < |ss| && has(ss[i]) && ss[i].id == id && forall j | 0 <= j < i :: !has(ss[j])
  }

  predicate Records(s: Source) {
    s.streams || s.handles
  }

  predicate PreferredToRecord(s: Source) {
    s.preferred && (s.streams || s.handles)
  }

  /** The fallback: the first preferred source that can record, or else the first that can. */
  ghost predicate Fallback(ss: seq<Source>, id: Option<SourceId>) {
    if exists s :: s in ss && PreferredToRecord(s) then id.Some? && FirstWith(ss, PreferredToRecord, id.value)
    else if exists s :: s in ss && Records(s) then id.Some? && FirstWith(ss, Records, id.value)
    else id.None?
  }

  lemma FirstWithCons(s: Source, rest: seq<Source>, has: Source -> bool, id: SourceId)
    requires !has(s) && FirstWith(rest, has, id)
    ensures FirstWith([s] + rest, has, id)
  {
    var all := [s] + rest;
    var i :| 0 <= i < |rest| && has(rest[i]) && rest[i].id == id && forall j | 0 <= j < i :: !has(rest[j]);
    assert all[i + 1] == rest[i];
    assert forall j | 0 <= j < i + 1 :: all[j] == if j == 0 then s else rest[j - 1];
  }

  lemma {:induction false} PreferredOutcome(ss: seq<Source>)
    ensures FirstPreferred(ss).None? ==> forall s | s in ss :: !PreferredToRecord(s)
    ensures FirstPreferred(ss).Some? ==> FirstWith(ss, PreferredToRecord, FirstPreferred(ss).value)
  {
    if ss != [] && !PreferredToRecord(ss[0]) {
      PreferredOutcome(ss[1..]);
      assert ss == [ss[0]] + ss[1..];
      if FirstPreferred(ss).Some? {
        FirstWithCons(ss[0], ss[1..], PreferredToRecord, FirstPreferred(ss).value);
      }
    }
  }

  lemma {:induction false} UsableOutcome(ss: seq<Source>)
    ensures FirstUsable(ss).None? ==> forall s | s in ss :: !Records(s)
    ensures FirstUsable(ss).Some? ==> FirstWith(ss, Records, FirstUsable(ss).value)
  {
    if ss != [] && !Records(ss[0]) {
      UsableOutcome(ss[1..]);
      assert ss == [ss[0]] + ss[1..];
      if FirstUsable(ss).Some? {
        FirstWithCons(ss[0], ss[1..], Records, FirstUsable(ss).value);
      }
    }
  }

  lemma AutomaticOutcome(ss: seq<Source>)
    ensures Fallback(ss, Automatic(ss))
  {
    PreferredOutcome(ss);
    UsableOutcome(ss);
  }

  // ----- registering ---------------------------------------------------------------------------------------

  predicate Known(ss: seq<Source>, id: SourceId) {
    exists s :: s in ss && s.id == id
  }

  /** A known source is replaced where it stands, a new one comes last. */
  ghost predicate PutIn(ss: seq<Source>, s: Source, ss': seq<Source>) {
    if Known(ss, s.id) then exists i :: 0 <= i < |ss| && ss[i].id == s.id && ss' == ss[i := s]
    else ss' == ss + [s]
  }

  lemma {:induction false} PutOutcome(ss: seq<Source>, s: Source)
    ensures PutIn(ss, s, Put(ss, s))
  {
    if ss != [] {
      if ss[0].id == s.id {
        assert ss[0] in ss && [s] + ss[1..] == ss[0 := s];
      } else {
        PutOutcome(ss[1..], s);
        assert ss == [ss[0]] + ss[1..];
        if Known(ss[1..], s.id) {
          var i :| 0 <= i < |ss[1..]| && ss[1..][i].id == s.id && Put(ss[1..], s) == ss[1..][i := s];
          assert ss[i + 1] == ss[1..][i] && Put(ss, s) == ss[i + 1 := s];
          var x :| x in ss[1..] && x.id == s.id;
          assert x in ss;
        } else {
          assert Put(ss, s) == ss + [s];
        }
      }
    }
  }

  /** The source with this id can record. */
  predicate CanRecord(ss: seq<Source>, id: SourceId) {
    exists s :: s in ss && s.id == id && Records(s)
  }

  lemma RecordMeans(ss: seq<Source>, id: SourceId)
    requires DistinctIds(ss)
    ensures DefaultUsable(ss, id) <==> CanRecord(ss, id)
  {
    forall s | s in ss && s.id == id ensures Find(ss, id) == Some(s) {
      FindUnique(ss, s);
    }
  }

  lemma KnownMeans(ss: seq<Source>, id: SourceId)
    ensures Find(ss, id).Some? <==> Known(ss, id)
  {
  }

  /** Registering is refused exactly for a new source beyond 64.  Otherwise the source is put in its place, and is
      the default if it is preferred and can record, or if there was none; a default that can record stays; one
      that cannot gives way to the fallback, if any. */
  lemma RegisterOutcome(e: Entry, s: Source)
    requires Coherent(e)
    ensures var e' := Registered(e, s);
      if !Known(e.sources, s.id) && |e.sources| >= 64 then e' == e
      else
        && PutIn(e.sources, s, e'.sources)
        && if PreferredToRecord(s) || e.default.None? then e'.default == Some(s.id)
           else if CanRecord(e'.sources, e.default.value) || !(exists x :: x in e'.sources && Records(x)) then e'.default == e.default
           else Fallback(e'.sources, e'.default)
  {
    KnownMeans(e.sources, s.id);
    if !Refused(e, s) {
      var ss := Put(e.sources, s);
      PutOutcome(e.sources, s);
      PutEffect(e.sources, s);
      AutomaticOutcome(ss);
      if e.default.Some? {
        RecordMeans(ss, e.default.value);
      }
    }
  }

  // ----- unregistering ----------------------------------------------------------------------------------------

  /** `a` stands before `b`. */
  predicate Ahead(ss: seq<Source>, a: Source, b: Source) {
    exists i, j :: 0 <= i < j < |ss| && ss[i] == a && ss[j] == b
  }

  lemma AheadCons(x: Source, ss: seq<Source>, a: Source, b: Source)
    ensures Ahead([x] + ss, a, b) <==> Ahead(ss, a, b) || (x == a && b in ss)
  {
    var all := [x] + ss;
    if Ahead(all, a, b) {
      var i, j :| 0 <= i < j < |all| && all[i] == a && all[j] == b;
      assert ss[j - 1] == b && (i > 0 ==> ss[i - 1] == a);
    }
    if Ahead(ss, a, b) {
      var i, j :| 0 <= i < j < |ss| && ss[i] == a && ss[j] == b;
      assert all[i + 1] == a && all[j + 1] == b;
    } else if x == a && b in ss {
      var j :| 0 <= j < |ss| && ss[j] == b;
      assert all[0] == a && all[j + 1] == b;
    }
  }

  lemma {:induction false} KeepOrder(ss: seq<Source>, plugin: Option<string>, a: Source, b: Source)
    requires Ahead(Keep(ss, plugin), a, b)
    ensures Ahead(ss, a, b)
  {
    if ss != [] {
      var rest := ss[1..];
      assert ss == [ss[0]] + rest;
      AheadCons(ss[0], rest, a, b);
      AheadCons(ss[0], Keep(rest, plugin), a, b);
      if Ahead(Keep(rest, plugin), a, b) {
        KeepOrder(rest, plugin, a, b);
      }
    }
  }

  /** Unregistering removes exactly the sources of the plugin, or all, and keeps the order of the others; the
      default stays unless its source went, and then the fallback takes its place. */
  lemma UnregisterOutcome(e: Entry, plugin: Option<string>)
    requires Coherent(e)
    ensures var e' := Unregistered(e, plugin);
      && (forall s :: s in e'.sources <==> s in e.sources && plugin.Some? && s.plugin != plugin.value)
      && DistinctIds(e'.sources) && (forall a, b | Ahead(e'.sources, a, b) :: Ahead(e.sources, a, b))
      && if e'.sources == [] then e'.default.None?
         else if e.default.Some? && !Known(e'.sources, e.default.value) then Fallback(e'.sources, e'.default)
         else e'.default == e.default
  {
    var kept := Keep(e.sources, plugin);
    KeepDistinct(e.sources, plugin);
    AutomaticOutcome(kept);
    forall a, b | Ahead(kept, a, b) ensures Ahead(e.sources, a, b) {
      KeepOrder(e.sources, plugin, a, b);
    }
    if e.default.Some? {
      KnownMeans(kept, e.default.value);
      KnownMeans(e.sources, e.default.value);
    }
  }

  // ----- reading ----------------------------------------------------------------------------------------------

  /** Reading returns the default's source if it can record or none can; else the fallback, which becomes the
      default; else the first source there is. */
  lemma ReadOutcome(e: Entry)
    requires DistinctIds(e.sources)
    ensures var (found, e') := Selected(e);
      var any := exists s :: s in e.sources && Records(s);
      if e.default.Some? && Known(e.sources, e.default.value) && (CanRecord(e.sources, e.default.value) || !any) then
        e' == e && found.Some? && found.value in e.sources && found.value.id == e.default.value
      else if any then
        && e'.sources == e.sources && Fallback(e.sources, e'.default)
        && found.Some? && found.value in e.sources && Some(found.value.id) == e'.default
      else
        e' == e && found == if e.sources == [] then None else Some(e.sources[0])
  {
    AutomaticOutcome(e.sources);
    if e.default.Some? {
      KnownMeans(e.sources, e.default.value);
      RecordMeans(e.sources, e.default.value);
    }
    if Automatic(e.sources).Some? {
      KnownMeans(e.sources, Automatic(e.sources).value);
    }
  }

  // ----- listing ----------------------------------------------------------------------------------------------

  /** The listing shows the default first, then goes by name, and by id among equal names. */
  lemma ListingOutcome(e: Entry, i: int)
    requires Coherent(e) && 0 <= i < |Listing(e)| - 1
    ensures var a, b := Listing(e)[i], Listing(e)[i + 1];
      && (b.default ==> a.default)
      && (a.default == b.default ==> AtMost(a.source.name, b.source.name))
      && (a.default == b.default && a.source.name == b.source.name ==> AtMost(a.source.id, b.source.id))
  {
    ListingTheorem(e);
    assert Precedes(Listing(e)[i], Listing(e)[i + 1]);
    Reflexive(Listing(e)[i].source.name);
  }

  lemma {:induction false} Reflexive(s: string)
    ensures AtMost(s, s)
  {
    if s != "" {
      Reflexive(s[1..]);
    }
  }
}
