/** Which error a playlist is rejected with: the first thing wrong with it, in the order of its lines and then of
    its components. */
module PlaylistErrors {
  import opened Domain
  import opened Playlist

  /** What is wrong with an unacceptable line. */
  ghost function ErrorAt(lines: seq<Line>, i: int): Error
    requires 1 <= i < |lines|
  {
    if lines[i].kind.Reference? then SegmentReferenceInvalid
    else if lines[i].kind.ExtMap? then InitializationReferenceMissing
    else if OpenAt(lines, i) then SegmentReferenceMissing
    else if forall m | IsMap(lines, m) :: i <= m then InitializationReferenceMissing
    else SegmentDurationInvalid
  }

  ghost predicate FirstBadLine(lines: seq<Line>, n: int, i: int) {
    1 <= i < n <= |lines| && !LineOk(lines, i) && forall j | 1 <= j < i :: LineOk(lines, j)
  }

  lemma OneLineError(lines: seq<Line>, n: int, s: Scan)
    requires 1 <= n < |lines| && s.Good? && Means(lines, n, s) && OneLine(s, lines[n]).Bad?
    ensures OneLine(s, lines[n]).error == ErrorAt(lines, n)
  {
    assert lines[n].kind.ExtInf? ==> IsExtInf(lines, n);
    assert lines[n].kind.ExtMap? ==> IsMap(lines, n);
  }

  /** The scan stops at the first unacceptable line and says what is wrong with it. */
  lemma {:induction false} ScanErrorOutcome(lines: seq<Line>, n: nat)
    requires 1 <= n <= |lines|
    ensures ScanTo(lines, n).Bad? <==> exists i :: FirstBadLine(lines, n, i)
    ensures forall i | FirstBadLine(lines, n, i) :: ScanTo(lines, n) == Bad(ErrorAt(lines, i))
  {
    ScanMeans(lines, n);
    if n > 1 {
      ScanErrorOutcome(lines, n - 1);
      ScanMeans(lines, n - 1);
      var before := ScanTo(lines, n - 1);
      if before.Good? {
        OneLineMeans(lines, n - 1, before);
        if OneLine(before, lines[n - 1]).Bad? {
          OneLineError(lines, n - 1, before);
          assert FirstBadLine(lines, n, n - 1);
        }
      } else {
        var i :| FirstBadLine(lines, n - 1, i);
        assert FirstBadLine(lines, n, i);
      }
      forall i | FirstBadLine(lines, n, i) ensures ScanTo(lines, n) == Bad(ErrorAt(lines, i)) {
        assert i < n - 1 ==> FirstBadLine(lines, n - 1, i);
        assert i == n - 1 ==> forall j | 1 <= j < n - 1 :: LineOk(lines, j);
      }
    }
  }

  // ----- components -----------------------------------------------------------------------------------------------

  /** What is wrong with a component, if anything: it is not there, or it is empty. */
  predicate Absent(files: Files, path: string) {
    path == "" || path[0] == '/' || path[0] == '.' || path !in files
  }

  ghost predicate FirstBadMap(lines: seq<Line>, n: int, files: Files, m: int) {
    && IsMap(lines, m) && m < n && lines[m].kind.uri.Some?
    && (Absent(files, lines[m].kind.uri.value) || files[lines[m].kind.uri.value] == 0)
    && forall j | IsMap(lines, j) && j < m ::
         lines[j].kind.uri.Some? && !Absent(files, lines[j].kind.uri.value) && files[lines[j].kind.uri.value] > 0
  }

  ghost predicate FirstBadReference(lines: seq<Line>, n: int, files: Files, m: int) {
    && IsReference(lines, m) && m < n && (Absent(files, lines[m].kind.path) || files[lines[m].kind.path] == 0)
    && forall j | IsReference(lines, j) && j < m :: !Absent(files, lines[j].kind.path) && files[lines[j].kind.path] > 0
  }

  lemma FirstErrorAppended(files: Files, paths: seq<string>, path: string, check: (Files, string) -> Option<Error>)
    ensures FirstError(files, paths + [path], check)
            == if FirstError(files, paths, check).Some? then FirstError(files, paths, check) else check(files, path)
  {
    if paths != [] {
      assert (paths + [path])[1..] == paths[1..] + [path];
      FirstErrorAppended(files, paths[1..], path, check);
    }
  }

  lemma {:induction false} MapErrors(lines: seq<Line>, n: nat, files: Files)
    requires 1 <= n <= |lines| && ScanTo(lines, n).Good?
    ensures var e := FirstError(files, ScanTo(lines, n).inits, InitError);
      && (e.Some? <==> exists m :: FirstBadMap(lines, n, files, m))
      && forall m | FirstBadMap(lines, n, files, m) ::
           e == Some(if Absent(files, lines[m].kind.uri.value) then InitializationComponentMissing else InitializationComponentEmpty)
    decreases n, 1
  {
    if n > 1 {
      MapErrors(lines, n - 1, files);
      var before := FirstError(files, ScanTo(lines, n - 1).inits, InitError);
      assert forall m | m < n - 1 :: FirstBadMap(lines, n, files, m) <==> FirstBadMap(lines, n - 1, files, m);
      if before.Some? {
        var m :| FirstBadMap(lines, n - 1, files, m);
        assert FirstBadMap(lines, n, files, m);
      } else {
        AllMapsPlay(lines, n - 1, files);
      }
      if IsMap(lines, n - 1) {
        FirstErrorAppended(files, ScanTo(lines, n - 1).inits, lines[n - 1].kind.uri.value, InitError);
        LastMap(lines, n, files);
      }
    }
  }

  lemma LastMap(lines: seq<Line>, n: nat, files: Files)
    requires 1 < n <= |lines| && ScanTo(lines, n).Good? && IsMap(lines, n - 1)
    ensures lines[n - 1].kind.uri.Some?
    ensures FirstBadMap(lines, n, files, n - 1) <==>
              FirstError(files, ScanTo(lines, n - 1).inits, InitError).None? && InitError(files, lines[n - 1].kind.uri.value).Some?
    decreases n, 0
  {
    MapErrors(lines, n - 1, files);
    if FirstError(files, ScanTo(lines, n - 1).inits, InitError).None? {
      AllMapsPlay(lines, n - 1, files);
    }
  }

  /** Without an error every map before `n` plays. */
  lemma AllMapsPlay(lines: seq<Line>, n: nat, files: Files)
    requires 1 <= n <= |lines| && ScanTo(lines, n).Good? && FirstError(files, ScanTo(lines, n).inits, InitError).None?
    ensures forall j | IsMap(lines, j) && j < n ::
              lines[j].kind.uri.Some? && !Absent(files, lines[j].kind.uri.value) && files[lines[j].kind.uri.value] > 0
  {
    ScanMeans(lines, n);
    forall j | IsMap(lines, j) && j < n
      ensures lines[j].kind.uri.Some? && !Absent(files, lines[j].kind.uri.value) && files[lines[j].kind.uri.value] > 0
    {
      assert LineOk(lines, j);
      assert lines[j].kind.uri.value in ScanTo(lines, n).inits;
      assert InitError(files, lines[j].kind.uri.value).None?;
    }
  }

  lemma {:induction false} ReferenceErrors(lines: seq<Line>, n: nat, files: Files)
    requires 1 <= n <= |lines| && ScanTo(lines, n).Good?
    ensures var e := FirstError(files, ScanTo(lines, n).segments, SegmentError);
      && (e.Some? <==> exists m :: FirstBadReference(lines, n, files, m))
      && forall m | FirstBadReference(lines, n, files, m) ::
           e == Some(if Absent(files, lines[m].kind.path) then SegmentComponentMissing else SegmentComponentEmpty)
    decreases n, 1
  {
    if n > 1 {
      ReferenceErrors(lines, n - 1, files);
      var before := FirstError(files, ScanTo(lines, n - 1).segments, SegmentError);
      assert forall m | m < n - 1 :: FirstBadReference(lines, n, files, m) <==> FirstBadReference(lines, n - 1, files, m);
      if before.Some? {
        var m :| FirstBadReference(lines, n - 1, files, m);
        assert FirstBadReference(lines, n, files, m);
      } else {
        AllReferencesPlay(lines, n - 1, files);
      }
      if IsReference(lines, n - 1) {
        FirstErrorAppended(files, ScanTo(lines, n - 1).segments, lines[n - 1].kind.path, SegmentError);
        LastReference(lines, n, files);
      }
    }
  }

  lemma LastReference(lines: seq<Line>, n: nat, files: Files)
    requires 1 < n <= |lines| && ScanTo(lines, n).Good? && IsReference(lines, n - 1)
    ensures FirstBadReference(lines, n, files, n - 1) <==>
              FirstError(files, ScanTo(lines, n - 1).segments, SegmentError).None? && SegmentError(files, lines[n - 1].kind.path).Some?
    decreases n, 0
  {
    ReferenceErrors(lines, n - 1, files);
    if FirstError(files, ScanTo(lines, n - 1).segments, SegmentError).None? {
      AllReferencesPlay(lines, n - 1, files);
    }
  }

  lemma AllReferencesPlay(lines: seq<Line>, n: nat, files: Files)
    requires 1 <= n <= |lines| && ScanTo(lines, n).Good? && FirstError(files, ScanTo(lines, n).segments, SegmentError).None?
    ensures forall j | IsReference(lines, j) && j < n :: !Absent(files, lines[j].kind.path) && files[lines[j].kind.path] > 0
  {
    ScanMeans(lines, n);
    forall j | IsReference(lines, j) && j < n ensures !Absent(files, lines[j].kind.path) && files[lines[j].kind.path] > 0 {
      assert lines[j].kind.path in ScanTo(lines, n).segments;
      assert SegmentError(files, lines[j].kind.path).None?;
    }
  }

  // ----- the verdict ------------------------------------------------------------------------------------------------

  /** Of its components, once its lines are acceptable. */
  ghost predicate ComponentsRejected(lines: seq<Line>, files: Files, requireEnd: bool, e: Error) {
    var n := |lines|;
    if exists m :: FirstBadMap(lines, n, files, m) then
      exists m :: FirstBadMap(lines, n, files, m)
        && e == if Absent(files, lines[m].kind.uri.value) then InitializationComponentMissing else InitializationComponentEmpty
    else if forall j :: !IsReference(lines, j) then e == SegmentsMissing
    else if exists m :: FirstBadReference(lines, n, files, m) then
      exists m :: FirstBadReference(lines, n, files, m)
        && e == if Absent(files, lines[m].kind.path) then SegmentComponentMissing else SegmentComponentEmpty
    else requireEnd && (forall i | 1 <= i < n :: !lines[i].kind.EndList?) && e == EndListMissing
  }

  /** The error of a playlist, in the order in which things are looked at. */
  ghost predicate RejectedWith(lines: seq<Line>, files: Files, requireEnd: bool, e: Error) {
    var n := |lines|;
    if lines == [] || !lines[0].kind.Header? then e == HeaderMissing
    else if exists i :: FirstBadLine(lines, n, i) then exists i :: FirstBadLine(lines, n, i) && e == ErrorAt(lines, i)
    else if OpenAt(lines, n) then e == SegmentReferenceMissing
    else if forall m :: !IsMap(lines, m) then e == InitializationReferenceMissing
    else ComponentsRejected(lines, files, requireEnd, e)
  }

  /** The validator reports exactly that error. */
  lemma ErrorTheorem(lines: seq<Line>, files: Files, requireEnd: bool, e: Error)
    ensures Verdict(lines, files, requireEnd) == Some(e) <==> RejectedWith(lines, files, requireEnd, e)
  {
    if lines != [] && lines[0].kind.Header? {
      ScanErrorOutcome(lines, |lines|);
      if ScanTo(lines, |lines|).Good? {
        GoodScanError(lines, files, requireEnd, e);
      }
    }
  }

  /** What can still be wrong once every line is acceptable. */
  lemma GoodScanError(lines: seq<Line>, files: Files, requireEnd: bool, e: Error)
    requires lines != [] && lines[0].kind.Header? && ScanTo(lines, |lines|).Good?
    requires forall i :: !FirstBadLine(lines, |lines|, i)
    ensures Verdict(lines, files, requireEnd) == Some(e) <==> RejectedWith(lines, files, requireEnd, e)
  {
    var n, s := |lines|, ScanTo(lines, |lines|);
    ScanMeans(lines, n);
    NothingListed(lines);
    assert s.pending <==> OpenAt(lines, n);
    assert Verdict(lines, files, requireEnd)
      == if s.pending then Some(SegmentReferenceMissing)
         else if s.inits == [] then Some(InitializationReferenceMissing)
         else ComponentsVerdict(lines, files, requireEnd);
    ComponentsError(lines, files, requireEnd, e);
  }

  /** The verdict on a readable playlist with a map and nothing left open. */
  function ComponentsVerdict(lines: seq<Line>, files: Files, requireEnd: bool): Option<Error>
    requires lines != [] && ScanTo(lines, |lines|).Good?
  {
    var s := ScanTo(lines, |lines|);
    if FirstError(files, s.inits, InitError).Some? then FirstError(files, s.inits, InitError)
    else if s.segments == [] then Some(SegmentsMissing)
    else if FirstError(files, s.segments, SegmentError).Some? then FirstError(files, s.segments, SegmentError)
    else if requireEnd && !s.ended then Some(EndListMissing)
    else None
  }

  lemma ComponentsError(lines: seq<Line>, files: Files, requireEnd: bool, e: Error)
    requires lines != [] && ScanTo(lines, |lines|).Good?
    ensures ComponentsVerdict(lines, files, requireEnd) == Some(e) <==> ComponentsRejected(lines, files, requireEnd, e)
  {
    ScanMeans(lines, |lines|);
    NothingListed(lines);
    MapErrors(lines, |lines|, files);
    ReferenceErrors(lines, |lines|, files);
  }

  lemma NothingListed(lines: seq<Line>)
    requires lines != [] && ScanTo(lines, |lines|).Good?
    ensures ScanTo(lines, |lines|).inits == [] <==> forall m :: !IsMap(lines, m)
    ensures ScanTo(lines, |lines|).segments == [] <==> forall j :: !IsReference(lines, j)
  {
    var s := ScanTo(lines, |lines|);
    ScanMeans(lines, |lines|);
    if s.segments != [] {
      assert s.segments[0] in s.segments;
    } else if exists j :: IsReference(lines, j) {
      NonemptySegments(lines);
    }
    if s.inits != [] {
      assert s.inits[0] in s.inits;
    }
  }

  lemma NonemptySegments(lines: seq<Line>)
    requires lines != [] && ScanTo(lines, |lines|).Good? && exists j :: IsReference(lines, j)
    ensures ScanTo(lines, |lines|).segments != []
  {
    ScanMeans(lines, |lines|);
    var j :| IsReference(lines, j);
    assert lines[j].kind.path in ScanTo(lines, |lines|).segments;
  }

  // ----- counts -------------------------------------------------------------------------------------------------------

  function ReferenceLines(lines: seq<Line>, n: nat): set<int> {
    set j | 1 <= j < n && IsReference(lines, j)
  }

  /** As many segments are listed as there are reference lines. */
  lemma {:induction false} CountOutcome(lines: seq<Line>, n: nat)
    requires 1 <= n <= |lines| && ScanTo(lines, n).Good?
    ensures |ScanTo(lines, n).segments| == |ReferenceLines(lines, n)|
  {
    if n == 1 {
      assert ReferenceLines(lines, 1) == {};
    } else {
      CountOutcome(lines, n - 1);
      assert ReferenceLines(lines, n)
             == ReferenceLines(lines, n - 1) + if IsReference(lines, n - 1) then {n - 1} else {};
    }
  }
}
