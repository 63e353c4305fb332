/** A recording bundle as an object over its files.  Failing writes are parameters. */
module Bundle {
  import opened Domain
  import opened Playlist
  import opened BundleFiles

  /** How replacing the playlist by its completed version goes. */
  datatype EndWrite = Works | Fails | FailsLeavingTemporary

  /** What validation reports. */
  datatype Report = Report(error: Option<Error>, referenced: nat, unreferenced: nat, empty: nat)
  {
    predicate Valid() {
      error.None?
    }
  }

  function SegmentFiles(files: Tree): set<string> {
    set p | p in files && StartsWith(p, SEGMENT_PREFIX) && EndsWith(p, SEGMENT_SUFFIX)
  }

  function EmptySegments(files: Tree): set<string> {
    set p | p in SegmentFiles(files) && files[p].size == 0
  }

  /** The segments a playlist references, as far as the scan counts them before it stops. */
  function Counted(lines: seq<Line>): nat {
    if lines == [] || !lines[0].kind.Header? || ScanTo(lines, |lines|).Bad? then 0
    else |ScanTo(lines, |lines|).segments|
  }

  function ReportOf(files: Tree, requireEnd: bool): Report {
    var all, empty := |SegmentFiles(files)|, |EmptySegments(files)|;
    if PLAYLIST !in files then Report(Some(PlaylistMissing), 0, all, empty)
    else match files[PLAYLIST].content
      case Bytes(_) => Report(Some(PlaylistUnreadable), 0, all, empty)
      case Text(lines) =>
        Report(Verdict(lines, Sizes(files), requireEnd), Counted(lines), Max(0, all - Counted(lines)), empty)
  }

  class HLSRecordingBundle {
    var files: Tree
    var checksums: map<string, Entry>

    // ----- validation ------------------------------------------------------------------------------

    /** Checks that every component is there and not empty; `absent` and `empty` name what can be wrong. */
    method CheckComponents(paths: seq<string>, absent: Error, empty: Error, ghost check: (Files, string) -> Option<Error>)
      returns (error: Option<Error>)
      requires forall p :: check(Sizes(files), p) ==
                 if !Resolves(Sizes(files), p) then Some(absent)
                 else if Sizes(files)[p] == 0 then Some(empty) else None
      ensures error == FirstError(Sizes(files), paths, check)
    {
      var i := 0;
      while i < |paths|
        invariant 0 <= i <= |paths|
        invariant FirstError(Sizes(files), paths, check) == FirstError(Sizes(files), paths[i..], check)
      {
        var p := paths[i];
        if !Resolves(Sizes(files), p) {
          return Some(absent);
        }
        if files[p].size == 0 {
          return Some(empty);
        }
        assert paths[i..][1..] == paths[i + 1..];
        i := i + 1;
      }
      error := None;
    }

    /** Reads the lines of a playlist after its header. */
    method ScanLines(lines: seq<Line>) returns (scan: Scan)
      requires lines != []
      ensures scan == ScanTo(lines, |lines|)
    {
      var pending, mapped, ended := false, false, false;
      var inits: seq<string>, segments: seq<string> := [], [];
      ghost var n := |lines|;
      for i := 1 to |lines|
        invariant ScanTo(lines, i) == Good(pending, mapped, ended, inits, segments)
      {
        match lines[i].kind {
          case ExtInf(duration) =>
            if pending {
              StaysBad(lines, i + 1, n);
              return Bad(SegmentReferenceMissing);
            }
            if !mapped {
              StaysBad(lines, i + 1, n);
              return Bad(InitializationReferenceMissing);
            }
            if duration.None? || duration.value <= 0.0 {
              StaysBad(lines, i + 1, n);
              return Bad(SegmentDurationInvalid);
            }
            pending := true;
          case ExtMap(uri) =>
            if uri.None? {
              StaysBad(lines, i + 1, n);
              return Bad(InitializationReferenceMissing);
            }
            inits := inits + [uri.value];
            mapped := true;
          case EndList =>
            ended := true;
          case Reference(path) =>
            if !pending || !EndsWith(path, ".m4s") {
              StaysBad(lines, i + 1, n);
              return Bad(SegmentReferenceInvalid);
            }
            segments := segments + [path];
            pending := false;
          case _ =>
        }
      }
      scan := Good(pending, mapped, ended, inits, segments);
    }

    method ValidatePlaylist(requireEnd: bool) returns (r: Report)
      ensures r == ReportOf(files, requireEnd)
    {
      var all, empty := |SegmentFiles(files)|, |EmptySegments(files)|;
      if PLAYLIST !in files {
        return Report(Some(PlaylistMissing), 0, all, empty);
      }
      if files[PLAYLIST].content.Bytes? {
        return Report(Some(PlaylistUnreadable), 0, all, empty);
      }
      var lines := files[PLAYLIST].content.lines;
      if lines == [] || !lines[0].kind.Header? {
        return Report(Some(HeaderMissing), 0, all, empty);
      }
      var s := ScanLines(lines);
      if s.Bad? {
        return Report(Some(s.error), 0, all, empty);
      }
      r := Report(None, |s.segments|, Max(0, all - |s.segments|), empty);
      if s.pending {
        return r.(error := Some(SegmentReferenceMissing));
      }
      if s.inits == [] {
        return r.(error := Some(InitializationReferenceMissing));
      }
      var error := CheckComponents(s.inits, InitializationComponentMissing, InitializationComponentEmpty, InitError);
      if error.Some? {
        return r.(error := error);
      }
      if s.segments == [] {
        return r.(error := Some(SegmentsMissing));
      }
      error := CheckComponents(s.segments, SegmentComponentMissing, SegmentComponentEmpty, SegmentError);
      if error.Some? {
        return r.(error := error);
      }
      if requireEnd && !s.ended {
        return r.(error := Some(EndListMissing));
      }
    }

    /** Looks at the first `inspected` lines; `cut` is what is left of a line the inspection ends in. */
    method LivePlaybackReady(inspected: nat, cut: Option<Line>) returns (ready: bool)
      ensures PLAYLIST !in files || files[PLAYLIST].content.Bytes? ==> !ready
      ensures PLAYLIST in files && files[PLAYLIST].content.Text? ==>
                ready == LiveReady(Inspected(files[PLAYLIST].content.lines, inspected, cut), Sizes(files))
    {
      if PLAYLIST !in files || files[PLAYLIST].content.Bytes? {
        return false;
      }
      var lines := Inspected(files[PLAYLIST].content.lines, inspected, cut);
      if lines == [] || !lines[0].kind.Header? {
        return false;
      }
      var init: Option<string>, pending := None, false;
      ghost var n := |lines|;
      for i := 1 to |lines|
        invariant LiveTo(lines, i, Sizes(files)) == Continue(Live(init, pending))
      {
        match lines[i].kind {
          case ExtMap(uri) =>
            if uri.None? {
              LiveStaysDecided(lines, i + 1, n, Sizes(files));
              return false;
            }
            init := uri;
          case ExtInf(duration) =>
            if pending || !GoodDuration(duration) {
              LiveStaysDecided(lines, i + 1, n, Sizes(files));
              return false;
            }
            pending := true;
          case Reference(path) =>
            LiveStaysDecided(lines, i + 1, n, Sizes(files));
            if !pending || !EndsWith(path, ".m4s") || init.None? {
              return false;
            }
            if !Resolves(Sizes(files), init.value) || !Resolves(Sizes(files), path) {
              return false;
            }
            return files[init.value].size > 0 && files[path].size > 0;
          case _ =>
        }
      }
      ready := false;
    }

    // ----- temporary files -----------------------------------------------------------------------------

    /** The first name derived from the path that no file has. */
    method FreeName(path: string) returns (target: string)
      ensures exists k: nat :: target == TargetName(path, k) && target !in files && forall j: nat | j < k :: TargetName(path, j) in files
    {
      target := INCOMPLETE + BaseName(path);
      var suffix := 1;
      assert target == TargetName(path, 0);
      while target in files
        invariant suffix >= 1 && target == TargetName(path, suffix - 1)
        invariant forall j: nat | j < suffix - 1 :: TargetName(path, j) in files
        decreases |files| + 1 - suffix
      {
        assert forall j: nat | j < suffix :: TargetName(path, j) in files;
        SuffixSearchEnds(files, path, suffix);
        target := INCOMPLETE + BaseName(path) + "." + Decimal(suffix);
        suffix := suffix + 1;
        assert target == TargetName(path, suffix - 1);
      }
    }

    /** Moves every temporary file out of the way, under a name nothing has. */
    method PreserveTemporaryComponents() returns (moves: map<string, string>)
      modifies this`files
      ensures Preserves(old(files), files, moves)
    {
      moves := map[];
      var todo := Temporaries(files);
      while todo != {}
        invariant todo <= Temporaries(old(files))
        invariant PartlyPreserved(old(files), files, moves, todo)
      {
        var path :| path in todo;
        var target := FreeName(path);
        OneMove(old(files), files, moves, todo, path, target);
        files := (files - {path})[target := files[path]];
        moves := moves[path := target];
        todo := todo - {path};
      }
    }

    // ----- finalization ----------------------------------------------------------------------------------

    /** Completes the playlist unless the end tag already occurs in it.  The completed file has at least the
        tag in it; `extra` counts its other bytes. */
    method EnsureEndlist(write: EndWrite, extra: nat, mtime: int) returns (ok: bool)
      modifies this`files
      ensures ok <==> Ending(old(files)).Some? && (Ending(old(files)).value || write.Works?)
      ensures files == if Ending(old(files)) == Some(false)
                       then WrittenEnd(old(files), write, extra, mtime) else old(files)
    {
      if PLAYLIST !in files || files[PLAYLIST].content.Bytes? {
        return false;
      }
      var lines := files[PLAYLIST].content.lines;
      if exists line :: line in lines && line.Mentions() {
        return true;
      }
      var report := ValidatePlaylist(false);
      if !report.Valid() {
        return false;
      }
      match write {
        case Works =>
          files := files[PLAYLIST := File(extra + 1, mtime, Text(Ended(lines)))];
          return true;
        case FailsLeavingTemporary =>
          files := files[PLAYLIST + ".tmp" := File(extra, mtime, Bytes([]))];
          return false;
        case Fails =>
          return false;
      }
    }

    /** Completes a valid playlist and validates again, preserving what a failed write left behind. */
    method Complete(write: EndWrite, extra: nat, mtime: int) returns (report: Report, left: bool)
      requires ReportOf(files, false).Valid()
      modifies this`files
      ensures report == ReportOf(files, true)
      ensures report.Valid() <==> CanEnd(old(files), write)
      ensures report.Valid() ==> !left && files.Keys == old(files).Keys
    {
      ghost var before := files;
      var ok := EnsureEndlist(write, extra, mtime);
      left := false;
      if !ok {
        ghost var written := files;
        var more := PreserveTemporaryComponents();
        left := more != map[];
        FailedEnd(before, write, extra, mtime, written, files, more);
      } else {
        WrittenEndIsValid(before, write, extra, mtime);
      }
      report := ValidatePlaylist(true);
    }

    /** Settles the bundle: whether it is complete, and what validation reports. */
    method PrepareFinalize(incomplete: bool, write: EndWrite, extra: nat, mtime: int)
      returns (complete: bool, report: Report)
      modifies this`files
      ensures complete <==> !incomplete && Completes(old(files), write)
      ensures report == ReportOf(files, true) || (report == ReportOf(files, false) && !report.Valid())
      ensures complete ==> report.Valid() && Temporaries(files) == {} && files.Keys == old(files).Keys
    {
      var moves := PreserveTemporaryComponents();
      NothingMoved(old(files), files, moves);
      var preserved := moves != map[];
      report := ValidatePlaylist(false);
      if report.Valid() {
        var left;
        report, left := Complete(write, extra, mtime);
        preserved := preserved || left;
      }
      complete := report.Valid() && !incomplete && !preserved;
    }

    // ----- manifest and segments ------------------------------------------------------------------------------

    /** Lists the components, hashing only files whose cached fingerprint no longer matches. */
    method RefreshManifest(hash: Content -> string) returns (manifest: map<string, Component>)
      modifies this`checksums
      ensures manifest == CachedManifest(files, old(checksums), hash)
      ensures checksums == Refreshed(files, old(checksums), hash)
    {
      var todo := ListedFiles(files);
      ghost var done: set<string> := {};
      while todo != {}
        invariant todo !! done && todo + done == ListedFiles(files)
        invariant checksums == RefreshedOn(files, old(checksums), hash, done)
      {
        var path :| path in todo;
        OneEntry(files, old(checksums), hash, done, path);
        DigestUntouched(files, old(checksums), hash, done, path);
        var digest := Checksum(path, hash);
        checksums := checksums[path := Entry(files[path].size, files[path].mtime, digest)];
        todo, done := todo - {path}, done + {path};
      }
      assert done == ListedFiles(files);
      manifest := map p | p in files && Listed(p) :: Component(checksums[p].size, checksums[p].digest);
    }

    /** The cached digest while the fingerprint matches, a new one otherwise. */
    method Checksum(path: string, hash: Content -> string) returns (digest: string)
      requires path in files
      ensures digest == Digest(files, checksums, hash, path)
    {
      var file := files[path];
      if path in checksums && checksums[path].size == file.size && checksums[path].mtime == file.mtime {
        digest := checksums[path].digest;
      } else {
        digest := hash(file.content);
      }
    }

    /** One more than the highest segment index, or 0; no file has the name of that segment. */
    method NextSegmentIndex() returns (next: nat)
      ensures forall p | p in files && SegmentIndex(p).Some? :: SegmentIndex(p).value < next
      ensures next > 0 ==> exists p :: p in files && SegmentIndex(p) == Some(next - 1)
      ensures SegmentName(next) !in files
    {
      next := 0;
      var todo := files.Keys;
      while todo != {}
        invariant todo <= files.Keys
        invariant forall p | p in files && p !in todo && SegmentIndex(p).Some? :: SegmentIndex(p).value < next
        invariant next > 0 ==> exists p :: p in files && SegmentIndex(p) == Some(next - 1)
      {
        var path :| path in todo;
        todo := todo - {path};
        var index := SegmentIndex(path);
        if index.Some? && index.value >= next {
          next := index.value + 1;
        }
      }
      SegmentNameIndex(next);
    }
  }

  /** Whether the end tag occurs in the playlist; nothing when the playlist cannot be completed. */
  predicate Ready(files: Tree) {
    PLAYLIST in files && files[PLAYLIST].content.Text?
  }

  function Ending(files: Tree): Option<bool> {
    if !Ready(files) then None
    else
      var lines := files[PLAYLIST].content.lines;
      if Mentioned(lines) then Some(true)
      else if Valid(lines, Sizes(files), false) then Some(false) else None
  }

  function WrittenEnd(files: Tree, write: EndWrite, extra: nat, mtime: int): Tree
    requires Ready(files)
  {
    match write
    case Works => files[PLAYLIST := File(extra + 1, mtime, Text(Ended(files[PLAYLIST].content.lines)))]
    case Fails => files
    case FailsLeavingTemporary => files[PLAYLIST + ".tmp" := File(extra, mtime, Bytes([]))]
  }

  /** The end tag of a valid playlist is really there, or could be written because it occurred nowhere. */
  predicate CanEnd(files: Tree, write: EndWrite) {
    Ready(files)
    && var lines := files[PLAYLIST].content.lines; HasEndList(lines) || (!Mentioned(lines) && write.Works?)
  }

  /** When finalization may call a bundle complete: nothing temporary in it, a valid playlist, and its end. */
  predicate Completes(files: Tree, write: EndWrite) {
    Temporaries(files) == {} && ReportOf(files, false).Valid() && CanEnd(files, write)
  }

  lemma NothingMoved(before: Tree, after: Tree, moves: map<string, string>)
    requires Preserves(before, after, moves)
    ensures moves == map[] <==> Temporaries(before) == {}
    ensures moves == map[] ==> after == before
  {
    if moves == map[] {
      assert moves.Keys == {};
      forall p | p in after ensures p in before {
        assert Accounted(before, moves, p);
      }
    } else {
      assert moves.Keys != {};
    }
  }

  /** Playability is all a playlist asks of the files. */
  lemma MorePlayableStaysValid(lines: seq<Line>, f: Files, g: Files, requireEnd: bool)
    requires Valid(lines, f, requireEnd) && forall p | Playable(f, p) :: Playable(g, p)
    ensures Valid(lines, g, requireEnd)
  {
    ValidatorTheorem(lines, f, requireEnd);
    ValidatorTheorem(lines, g, requireEnd);
    forall p | OnHand(f, p) ensures OnHand(g, p) {
      assert Playable(f, p);
    }
  }

  lemma EndNeeded(lines: seq<Line>, files: Files)
    ensures Valid(lines, files, true) <==> Valid(lines, files, false) && HasEndList(lines)
    ensures HasEndList(lines) ==> Mentioned(lines)
  {
    ValidatorTheorem(lines, files, true);
    ValidatorTheorem(lines, files, false);
    if HasEndList(lines) {
      var i :| 1 <= i < |lines| && lines[i].kind.EndList?;
      assert lines[i] in lines;
    }
  }

  /** Whether completion leaves a playlist valid with its end list. */
  lemma WrittenEndIsValid(files: Tree, write: EndWrite, extra: nat, mtime: int)
    requires ReportOf(files, false).Valid() && Ending(files).Some? && (Ending(files).value || write.Works?)
    ensures var after := if Ending(files) == Some(false) then WrittenEnd(files, write, extra, mtime) else files;
      after.Keys == files.Keys && (ReportOf(after, true).Valid() <==> CanEnd(files, write))
  {
    var lines := files[PLAYLIST].content.lines;
    EndNeeded(lines, Sizes(files));
    if Ending(files) == Some(false) {
      EndListTheorem(lines, Sizes(files));
      var after := WrittenEnd(files, write, extra, mtime);
      MorePlayableStaysValid(Ended(lines), Sizes(files), Sizes(after), true);
    }
  }

  lemma FailedEnd(files: Tree, write: EndWrite, extra: nat, mtime: int, written: Tree, after: Tree, moves: map<string, string>)
    requires ReportOf(files, false).Valid() && Ending(files) == Some(false) && !write.Works?
    requires written == WrittenEnd(files, write, extra, mtime) && Preserves(written, after, moves)
    ensures !ReportOf(after, true).Valid() && !CanEnd(files, write)
  {
    var lines := files[PLAYLIST].content.lines;
    assert PLAYLIST[|PLAYLIST| - 4..] != ".tmp";
    assert PLAYLIST !in moves.Keys;
    assert PLAYLIST in after && after[PLAYLIST] == files[PLAYLIST];
    EndNeeded(lines, Sizes(files));
    EndNeeded(lines, Sizes(after));
  }

  /** The temporary files outside `todo` have been moved. */
  ghost predicate PartlyPreserved(before: Tree, now: Tree, moves: map<string, string>, todo: set<string>) {
    moves.Keys == Temporaries(before) - todo && MovedBy(before, now, moves)
  }

  /** A derived name that is free now was never taken, since only temporary files have left. */
  lemma FreeWasFree(before: Tree, now: Tree, moves: map<string, string>, todo: set<string>, path: string, target: string)
    requires PartlyPreserved(before, now, moves, todo) && target !in now && NamedAfter(target, path)
    ensures target !in before && target !in moves.Values && !Temporary(target)
  {
    var k: nat :| target == TargetName(path, k);
    TargetsAreNotTemporary(path, k);
    assert forall p | p in moves :: p in before;
  }

  lemma OneMove(before: Tree, now: Tree, moves: map<string, string>, todo: set<string>, path: string, target: string)
    requires PartlyPreserved(before, now, moves, todo) && path in todo && todo <= Temporaries(before)
    requires target !in now && NamedAfter(target, path)
    ensures PartlyPreserved(before, Moved(now, path, target), moves[path := target], todo - {path})
  {
    FreeWasFree(before, now, moves, todo, path, target);
    OneDelivered(before, now, moves, path, target);
    MoveCovers(before, now, moves, todo, path, target);
  }

  lemma OneDelivered(before: Tree, now: Tree, moves: map<string, string>, path: string, target: string)
    requires Delivered(before, now, moves) && Distinct(moves) && OthersStay(before, now, moves)
    requires path in before && path !in moves && NamedAfter(target, path)
    requires target !in before && target !in now && target !in moves.Values
    ensures Delivered(before, Moved(now, path, target), moves[path := target])
    ensures Distinct(moves[path := target])
    ensures OthersStay(before, Moved(now, path, target), moves[path := target])
  {
  }

  lemma MoveCovers(before: Tree, now: Tree, moves: map<string, string>, todo: set<string>, path: string, target: string)
    requires PartlyPreserved(before, now, moves, todo) && path in todo && todo <= Temporaries(before)
    ensures NothingNew(before, Moved(now, path, target), moves[path := target])
  {
    var now', moves' := Moved(now, path, target), moves[path := target];
    forall p | p in now' ensures Accounted(before, moves', p) {
      assert p in now ==> Accounted(before, moves, p);
      if p == target {
        assert moves'[path] == p;
      } else if p in moves.Values {
        var r :| r in moves && moves[r] == p;
        assert r != path && moves'[r] == p;
      }
    }
  }

  function Inspected(lines: seq<Line>, n: nat, cut: Option<Line>): seq<Line> {
    if n >= |lines| then lines else lines[..n] + if cut.Some? then [cut.value] else []
  }

  lemma {:induction false} StaysBad(lines: seq<Line>, n: nat, m: nat)
    requires 1 <= n <= m <= |lines| && ScanTo(lines, n).Bad?
    ensures ScanTo(lines, m) == ScanTo(lines, n)
    decreases m
  {
    if n < m {
      StaysBad(lines, n, m - 1);
    }
  }
}
