/** The media registry as an object: sources by Device in registration order, and a default each. */
module MediaRegistryObject {
  import opened Domain
  import opened MediaSelection

  class MediaRegistry {
    var sources: map<DeviceId, seq<Source>>
    var defaults: map<DeviceId, SourceId>

    ghost function State(d: DeviceId): Entry
      reads this
    {
      Entry(if d in sources then sources[d] else [], if d in defaults then Some(defaults[d]) else None)
    }

    constructor ()
      ensures forall d :: State(d) == Entry([], None) && Coherent(State(d))
    {
      sources, defaults := map[], map[];
    }

    /** Other Devices are as they were. */
    ghost predicate OthersKept(d: DeviceId, oldSources: map<DeviceId, seq<Source>>, oldDefaults: map<DeviceId, SourceId>)
      reads this
    {
      forall x | x != d ::
        (x in sources <==> x in oldSources) && (x in sources ==> sources[x] == oldSources[x])
        && (x in defaults <==> x in oldDefaults) && (x in defaults ==> defaults[x] == oldDefaults[x])
    }

    /** The first preferred usable source in registration order, or the first usable one. */
    method AutomaticSourceId(ss: seq<Source>) returns (id: Option<SourceId>)
      ensures id == Automatic(ss)
    {
      for i := 0 to |ss|
        invariant FirstPreferred(ss) == FirstPreferred(ss[i..])
      {
        assert ss[i..][1..] == ss[i + 1..];
        if ss[i].preferred && ss[i].Usable() {
          return Some(ss[i].id);
        }
      }
      for i := 0 to |ss|
        invariant FirstUsable(ss) == FirstUsable(ss[i..])
      {
        assert ss[i..][1..] == ss[i + 1..];
        if ss[i].Usable() {
          return Some(ss[i].id);
        }
      }
      id := None;
    }

    /** Registers or replaces a source; refused when the Device has too many. */
    method Register(d: DeviceId, s: Source) returns (ok: bool)
      modifies this
      ensures State(d) == Registered(old(State(d)), s) && ok == !Refused(old(State(d)), s)
      ensures OthersKept(d, old(sources), old(defaults))
    {
      var ss := if d in sources then sources[d] else [];
      if Find(ss, s.id).None? && |ss| >= MAX_SOURCES {
        return false;
      }
      ok := true;
      ss := Put(ss, s);
      sources := sources[d := ss];
      if s.preferred && s.Usable() {
        defaults := defaults[d := s.id];
      } else if d !in defaults {
        defaults := defaults[d := s.id];
      } else {
        var current := Find(ss, defaults[d]);
        if current.None? || !current.value.Usable() {
          var fallback := AutomaticSourceId(ss);
          if fallback.Some? {
            defaults := defaults[d := fallback.value];
          }
        }
      }
    }

    /** Removes the sources of one plugin, or all. */
    method Unregister(d: DeviceId, plugin: Option<string>)
      modifies this
      ensures old(Coherent(State(d))) ==> State(d) == Unregistered(old(State(d)), plugin)
      ensures OthersKept(d, old(sources), old(defaults))
    {
      if d !in sources || sources[d] == [] {
        return;
      }
      var kept := Keep(sources[d], plugin);
      var removedDefault := d in defaults && Find(sources[d], defaults[d]).Some? && Find(kept, defaults[d]).None?;
      if kept == [] {
        sources := sources - {d};
        defaults := defaults - {d};
        return;
      }
      sources := sources[d := kept];
      if removedDefault {
        var fallback := AutomaticSourceId(kept);
        if fallback.None? {
          defaults := defaults - {d};
        } else {
          defaults := defaults[d := fallback.value];
        }
      }
    }

    /** The automatic choice for a Device; it may store a repaired default. */
    method Get(d: DeviceId) returns (selected: Option<Source>)
      modifies this`defaults
      ensures (selected, State(d)) == Selected(old(State(d)))
      ensures OthersKept(d, old(sources), old(defaults))
      ensures old(Coherent(State(d))) ==> State(d) == old(State(d))
    {
      if old(Coherent(State(d))) {
        SelectionTheorem(State(d));
      }
      var ss := if d in sources then sources[d] else [];
      selected := if d in defaults then Find(ss, defaults[d]) else None;
      var fallback := AutomaticSourceId(ss);
      if selected.Some? && (selected.value.Usable() || fallback.None?) {
        return;
      }
      if fallback.Some? {
        defaults := defaults[d := fallback.value];
        return Find(ss, fallback.value);
      }
      selected := if ss == [] then None else Some(ss[0]);
    }

    /** The usable sources of a Device, its default first. */
    method VideoSources(d: DeviceId) returns (listing: seq<Choice>)
      ensures listing == Listing(State(d))
    {
      var ss := if d in sources then sources[d] else [];
      var default := if d in defaults then Some(defaults[d]) else None;
      var choices: seq<Choice> := [];
      for i := 0 to |ss|
        invariant choices == Choices(ss[..i], default)
      {
        assert ss[..i + 1][..i] == ss[..i];
        if ss[i].Usable() {
          choices := choices + [Choice(ss[i], default == Some(ss[i].id))];
        }
      }
      assert ss[..|ss|] == ss;
      listing := Sorted(choices);
    }
  }
}
