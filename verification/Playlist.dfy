/** Recording playlists: the subset of RFC 8216 a recording bundle may contain, as the validator's line by
    line scan and as a grammar.  A line is what remains of it once stripped and classified. */
module Playlist {
  import opened Domain

  datatype Kind =
    | Header
    | ExtInf(duration: Option<real>)  // no duration: unparsable, or not finite
    | ExtMap(uri: Option<string>)
    | EndList
    | Reference(path: string)
    | Comment
    | Blank

  /** `mentionsEnd`: the end tag occurs somewhere in the line. */
  datatype Line = Line(kind: Kind, mentionsEnd: bool)
  {
    predicate Mentions() {
      kind.EndList? || mentionsEnd
    }

    /** The line is an EXTINF or a media reference. */
    predicate Media() {
      kind.ExtInf? || kind.Reference?
    }
  }

  const END := Line(EndList, true)

  datatype Error =
    | PlaylistMissing | PlaylistUnreadable | HeaderMissing
    | SegmentReferenceMissing | SegmentReferenceInvalid | SegmentDurationInvalid | SegmentsMissing
    | SegmentComponentMissing | SegmentComponentEmpty
    | InitializationReferenceMissing | InitializationComponentMissing | InitializationComponentEmpty
    | EndListMissing

  /** Sizes of the regular files of the bundle, by relative path. */
  type Files = map<string, nat>

  predicate EndsWith(s: string, suffix: string) {
    |suffix| <= |s| && s[|s| - |suffix|..] == suffix
  }

  predicate IsSegmentName(path: string) {
    EndsWith(path, ".m4s")
  }

  /** A component reference must be relative and may not start with a dot. */
  predicate Resolves(files: Files, path: string) {
    path != "" && path[0] != '/' && path[0] != '.' && path in files
  }

  predicate Playable(files: Files, path: string) {
    Resolves(files, path) && files[path] > 0
  }

  predicate GoodDuration(d: Option<real>) {
    d.Some? && d.value > 0.0
  }

  // ----- the scan ---------------------------------------------------------------------------------

  datatype Scan =
    | Bad(error: Error)
    | Good(pending: bool, mapped: bool, ended: bool, inits: seq<string>, segments: seq<string>)

  /** One line after the header. */
  function OneLine(s: Scan, line: Line): Scan
    requires s.Good?
  {
    match line.kind
    case ExtInf(duration) =>
      if s.pending then Bad(SegmentReferenceMissing)
      else if !s.mapped then Bad(InitializationReferenceMissing)
      else if !GoodDuration(duration) then Bad(SegmentDurationInvalid)
      else s.(pending := true)
    case ExtMap(uri) =>
      if uri.None? then Bad(InitializationReferenceMissing)
      else s.(inits := s.inits + [uri.value], mapped := true)
    case EndList => s.(ended := true)
    case Reference(path) =>
      if !s.pending || !IsSegmentName(path) then Bad(SegmentReferenceInvalid)
      else s.(segments := s.segments + [path], pending := false)
    case _ => s
  }

  /** The scan of the first `n` lines, header included. */
  function ScanTo(lines: seq<Line>, n: nat): Scan
    requires 1 <= n <= |lines|
  {
    if n == 1 then Good(false, false, false, [], [])
    else
      var before := ScanTo(lines, n - 1);
      if before.Bad? then before else OneLine(before, lines[n - 1])
  }

  function InitError(files: Files, path: string): Option<Error> {
    if !Resolves(files, path) then Some(InitializationComponentMissing)
    else if files[path] == 0 then Some(InitializationComponentEmpty) else None
  }

  function SegmentError(files: Files, path: string): Option<Error> {
    if !Resolves(files, path) then Some(SegmentComponentMissing)
    else if files[path] == 0 then Some(SegmentComponentEmpty) else None
  }

  function FirstError(files: Files, paths: seq<string>, check: (Files, string) -> Option<Error>): (e: Option<Error>)
    ensures e.None? <==> forall p | p in paths :: check(files, p).None?
  {
    if paths == [] then None
    else if check(files, paths[0]).Some? then check(files, paths[0])
    else
      assert paths == [paths[0]] + paths[1..];
      FirstError(files, paths[1..], check)
  }

  /** The first thing wrong with a readable playlist. */
  function Verdict(lines: seq<Line>, files: Files, requireEnd: bool): Option<Error> {
    if lines == [] || !lines[0].kind.Header? then Some(HeaderMissing)
    else
      var s := ScanTo(lines, |lines|);
      if s.Bad? then Some(s.error)
      else if s.pending then Some(SegmentReferenceMissing)
      else if s.inits == [] then Some(InitializationReferenceMissing)
      else if FirstError(files, s.inits, InitError).Some? then FirstError(files, s.inits, InitError)
      else if s.segments == [] then Some(SegmentsMissing)
      else if FirstError(files, s.segments, SegmentError).Some? then FirstError(files, s.segments, SegmentError)
      else if requireEnd && !s.ended then Some(EndListMissing)
      else None
  }

  predicate Valid(lines: seq<Line>, files: Files, requireEnd: bool) {
    Verdict(lines, files, requireEnd).None?
  }

  // ----- the grammar --------------------------------------------------------------------------------

  predicate IsExtInf(lines: seq<Line>, i: int) {
    1 <= i < |lines| && lines[i].kind.ExtInf?
  }

  predicate IsMap(lines: seq<Line>, i: int) {
    1 <= i < |lines| && lines[i].kind.ExtMap?
  }

  predicate IsReference(lines: seq<Line>, i: int) {
    1 <= i < |lines| && lines[i].kind.Reference?
  }

  /** The reference at `j` is the media line that follows the EXTINF at `i`. */
  predicate Paired(lines: seq<Line>, i: int, j: int) {
    IsExtInf(lines, i) && IsReference(lines, j) && i < j && forall k | i < k < j :: !lines[k].Media()
  }

  ghost predicate HasReference(lines: seq<Line>, i: int) {
    exists j :: Paired(lines, i, j)
  }

  ghost predicate HasExtInf(lines: seq<Line>, j: int) {
    exists i :: Paired(lines, i, j)
  }

  /** Every EXTINF has its reference and every reference its EXTINF. */
  ghost predicate AllPaired(lines: seq<Line>) {
    && (forall i {:trigger HasReference(lines, i)} | IsExtInf(lines, i) :: HasReference(lines, i))
    && (forall j {:trigger HasExtInf(lines, j)} | IsReference(lines, j) :: HasExtInf(lines, j))
  }

  /** A file of the bundle that is not empty, by a path that is neither absolute nor begins with a dot. */
  predicate OnHand(files: Files, path: string) {
    path != "" && path[0] !in {'/', '.'} && path in files && files[path] != 0
  }

  ghost predicate Grammar(lines: seq<Line>, files: Files, requireEnd: bool) {
    && lines != [] && lines[0].kind.Header?
    && (forall i | IsExtInf(lines, i) ::
          && lines[i].kind.duration.Some? && lines[i].kind.duration.value > 0.0
          && exists m :: m < i && IsMap(lines, m))
    && (forall j | IsReference(lines, j) ::
          var p := lines[j].kind.path; |p| >= 4 && p[|p| - 4..] == ".m4s" && OnHand(files, p))
    && AllPaired(lines)
    && (forall m | IsMap(lines, m) :: lines[m].kind.uri.Some? && OnHand(files, lines[m].kind.uri.value))
    && (exists j :: IsReference(lines, j))
    && (requireEnd ==> exists i :: 1 <= i < |lines| && lines[i].kind.EndList?)
  }

  /** An EXTINF before `n` still waits for its reference. */
  ghost predicate OpenAt(lines: seq<Line>, n: int)
    requires n <= |lines|
  {
    exists k :: IsExtInf(lines, k) && k < n && forall m | k < m < n :: !lines[m].Media()
  }

  /** The line at `i` is acceptable after the lines before it. */
  ghost predicate LineOk(lines: seq<Line>, i: int)
    requires 1 <= i < |lines|
  {
    && (IsExtInf(lines, i) ==>
          GoodDuration(lines[i].kind.duration) && !OpenAt(lines, i) && exists m :: m < i && IsMap(lines, m))
    && (IsMap(lines, i) ==> lines[i].kind.uri.Some?)
    && (IsReference(lines, i) ==> IsSegmentName(lines[i].kind.path) && OpenAt(lines, i))
  }

  /** What the accumulators of the scan mean. */
  ghost predicate Means(lines: seq<Line>, n: int, s: Scan)
    requires 1 <= n <= |lines| && s.Good?
  {
    && (s.pending <==> OpenAt(lines, n))
    && (s.mapped <==> exists m :: m < n && IsMap(lines, m))
    && (s.mapped <==> s.inits != [])
    && (s.ended <==> exists i :: 1 <= i < n && lines[i].kind.EndList?)
    && (forall p :: p in s.inits <==> exists m :: m < n && IsMap(lines, m) && lines[m].kind.uri == Some(p))
    && (forall p :: p in s.segments <==> exists j :: j < n && IsReference(lines, j) && lines[j].kind.path == p)
  }

  lemma OpenAfter(lines: seq<Line>, n: int)
    requires 1 <= n < |lines|
    ensures lines[n].kind.ExtInf? ==> OpenAt(lines, n + 1)
    ensures lines[n].kind.Reference? ==> !OpenAt(lines, n + 1)
    ensures !lines[n].Media() ==> (OpenAt(lines, n + 1) <==> OpenAt(lines, n))
  {
    if lines[n].kind.ExtInf? {
      assert IsExtInf(lines, n);
    } else if !lines[n].Media() && OpenAt(lines, n) {
      var k :| IsExtInf(lines, k) && k < n && forall m | k < m < n :: !lines[m].Media();
      assert forall m | k < m < n + 1 :: !lines[m].Media();
    }
  }

  lemma OneLineMeans(lines: seq<Line>, n: int, s: Scan)
    requires 1 <= n < |lines| && s.Good? && Means(lines, n, s)
    ensures OneLine(s, lines[n]).Good? <==> LineOk(lines, n)
    ensures OneLine(s, lines[n]).Good? ==> Means(lines, n + 1, OneLine(s, lines[n]))
  {
    OpenAfter(lines, n);
    var t := OneLine(s, lines[n]);
    match lines[n].kind
    case ExtInf(_) => assert IsExtInf(lines, n);
    case ExtMap(uri) =>
      assert IsMap(lines, n);
      if t.Good? {
        assert forall p :: p in t.inits <==> p in s.inits || p == uri.value;
      }
    case Reference(path) =>
      assert IsReference(lines, n);
      if t.Good? {
        assert forall p :: p in t.segments <==> p in s.segments || p == path;
      }
    case EndList => assert lines[n].kind.EndList?;
    case _ =>
  }

  lemma {:induction false} ScanMeans(lines: seq<Line>, n: nat)
    requires 1 <= n <= |lines|
    ensures ScanTo(lines, n).Good? <==> forall i | 1 <= i < n :: LineOk(lines, i)
    ensures ScanTo(lines, n).Good? ==> Means(lines, n, ScanTo(lines, n))
  {
    if n > 1 {
      ScanMeans(lines, n - 1);
      if ScanTo(lines, n - 1).Good? {
        OneLineMeans(lines, n - 1, ScanTo(lines, n - 1));
      }
    }
  }

  // ----- the scan accepts exactly the grammar ---------------------------------------------------------

  /** Every line is acceptable and nothing is left open. */
  ghost predicate LinesOk(lines: seq<Line>)
    requires lines != []
  {
    (forall i | 1 <= i < |lines| :: LineOk(lines, i)) && !OpenAt(lines, |lines|)
  }

  /** The next media line, if any. */
  lemma {:induction false} NextMedia(lines: seq<Line>, i: int, n: int)
    requires 0 <= i < n <= |lines|
    ensures (forall m | i < m < n :: !lines[m].Media())
            || exists j :: i < j < n && lines[j].Media() && forall m | i < m < j :: !lines[m].Media()
  {
    if n > i + 1 {
      NextMedia(lines, i, n - 1);
      if (forall m | i < m < n - 1 :: !lines[m].Media()) && lines[n - 1].Media() {
        assert i < n - 1 < n && lines[n - 1].Media() && forall m | i < m < n - 1 :: !lines[m].Media();
      }
    }
  }

  lemma OpenMeansPaired(lines: seq<Line>)
    requires lines != [] && LinesOk(lines)
    ensures AllPaired(lines)
  {
    forall i | IsExtInf(lines, i) ensures HasReference(lines, i) {
      NextMedia(lines, i, |lines|);
      if forall m | i < m < |lines| :: !lines[m].Media() {
        assert OpenAt(lines, |lines|);
      } else {
        var j :| i < j < |lines| && lines[j].Media() && forall m | i < m < j :: !lines[m].Media();
        assert OpenAt(lines, j) && LineOk(lines, j);
        assert !IsExtInf(lines, j);
        assert Paired(lines, i, j);
      }
    }
    forall j | IsReference(lines, j) ensures HasExtInf(lines, j) {
      assert LineOk(lines, j);
      var k :| IsExtInf(lines, k) && k < j && forall m | k < m < j :: !lines[m].Media();
      assert Paired(lines, k, j);
    }
  }

  /** A paired EXTINF is open only up to its reference. */
  lemma PairedMeansClosed(lines: seq<Line>, n: int)
    requires AllPaired(lines) && 1 <= n <= |lines| && (n == |lines| || IsExtInf(lines, n))
    ensures !OpenAt(lines, n)
  {
    if OpenAt(lines, n) {
      var k :| IsExtInf(lines, k) && k < n && forall m | k < m < n :: !lines[m].Media();
      assert HasReference(lines, k);
      var j :| Paired(lines, k, j);
      assert j < n ==> lines[j].Media();
    }
  }

  lemma PairedMeansOpen(lines: seq<Line>, j: int)
    requires AllPaired(lines) && IsReference(lines, j)
    ensures OpenAt(lines, j)
  {
    assert HasExtInf(lines, j);
    var i :| Paired(lines, i, j);
    assert IsExtInf(lines, i) && i < j && forall m | i < m < j :: !lines[m].Media();
  }

  lemma GrammarMeansLinesOk(lines: seq<Line>, files: Files, requireEnd: bool)
    requires Grammar(lines, files, requireEnd)
    ensures LinesOk(lines)
  {
    assert AllPaired(lines);
    PairedMeansClosed(lines, |lines|);
    forall i | 1 <= i < |lines| ensures LineOk(lines, i) {
      if IsExtInf(lines, i) {
        PairedMeansClosed(lines, i);
      } else if IsReference(lines, i) {
        PairedMeansOpen(lines, i);
      }
    }
  }

  /** The validator accepts exactly the playlists of the grammar. */
  lemma ValidatorTheorem(lines: seq<Line>, files: Files, requireEnd: bool)
    ensures Valid(lines, files, requireEnd) <==> Grammar(lines, files, requireEnd)
  {
    if lines != [] && lines[0].kind.Header? {
      ScanMeans(lines, |lines|);
      var s := ScanTo(lines, |lines|);
      if Valid(lines, files, requireEnd) {
        assert LinesOk(lines);
        OpenMeansPaired(lines);
        ValidComponents(lines, files, requireEnd);
      }
      if Grammar(lines, files, requireEnd) {
        GrammarMeansLinesOk(lines, files, requireEnd);
        GrammarComponents(lines, files, requireEnd);
      }
    }
  }

  lemma ValidComponents(lines: seq<Line>, files: Files, requireEnd: bool)
    requires Valid(lines, files, requireEnd) && Means(lines, |lines|, ScanTo(lines, |lines|)) && LinesOk(lines)
    ensures forall j | IsReference(lines, j) :: IsSegmentName(lines[j].kind.path) && Playable(files, lines[j].kind.path)
    ensures forall m | IsMap(lines, m) :: lines[m].kind.uri.Some? && Playable(files, lines[m].kind.uri.value)
    ensures forall i | IsExtInf(lines, i) ::
              GoodDuration(lines[i].kind.duration) && exists m :: m < i && IsMap(lines, m)
    ensures exists j :: IsReference(lines, j)
    ensures requireEnd ==> exists i :: 1 <= i < |lines| && lines[i].kind.EndList?
  {
    var s := ScanTo(lines, |lines|);
    forall j | IsReference(lines, j) ensures IsSegmentName(lines[j].kind.path) && Playable(files, lines[j].kind.path) {
      assert LineOk(lines, j);
      assert lines[j].kind.path in s.segments;
      assert SegmentError(files, lines[j].kind.path).None?;
    }
    forall m | IsMap(lines, m) ensures lines[m].kind.uri.Some? && Playable(files, lines[m].kind.uri.value) {
      assert LineOk(lines, m);
      assert lines[m].kind.uri.value in s.inits;
      assert InitError(files, lines[m].kind.uri.value).None?;
    }
    forall i | IsExtInf(lines, i) ensures GoodDuration(lines[i].kind.duration) && exists m :: m < i && IsMap(lines, m) {
      assert LineOk(lines, i);
    }
    assert s.segments[0] in s.segments;
  }

  lemma GrammarComponents(lines: seq<Line>, files: Files, requireEnd: bool)
    requires Grammar(lines, files, requireEnd) && LinesOk(lines)
    requires ScanTo(lines, |lines|).Good? && Means(lines, |lines|, ScanTo(lines, |lines|))
    ensures Valid(lines, files, requireEnd)
  {
    var s := ScanTo(lines, |lines|);
    var j :| IsReference(lines, j);
    assert lines[j].kind.path in s.segments;
    assert HasExtInf(lines, j);
    var i :| Paired(lines, i, j);
    assert IsExtInf(lines, i) && s.mapped;
    GrammarPlays(lines, files, requireEnd);
  }

  lemma GrammarPlays(lines: seq<Line>, files: Files, requireEnd: bool)
    requires Grammar(lines, files, requireEnd)
    requires ScanTo(lines, |lines|).Good? && Means(lines, |lines|, ScanTo(lines, |lines|))
    ensures forall p | p in ScanTo(lines, |lines|).inits :: InitError(files, p).None?
    ensures forall p | p in ScanTo(lines, |lines|).segments :: SegmentError(files, p).None?
  {
  }

  // ----- growing a playlist ----------------------------------------------------------------------------

  lemma {:induction false} ScanPrefix(lines: seq<Line>, more: seq<Line>, n: nat)
    requires 1 <= n <= |lines|
    ensures ScanTo(lines + more, n) == ScanTo(lines, n)
  {
    if n > 1 {
      ScanPrefix(lines, more, n - 1);
    }
  }

  lemma FirstErrorAppends(files: Files, paths: seq<string>, path: string, check: (Files, string) -> Option<Error>)
    requires FirstError(files, paths, check).None? && check(files, path).None?
    ensures FirstError(files, paths + [path], check).None?
  {
  }

  /** The references of a playlist, in order. */
  function References(lines: seq<Line>): (seq<string>, seq<string>)
    requires lines != [] && ScanTo(lines, |lines|).Good?
  {
    var s := ScanTo(lines, |lines|);
    (s.inits, s.segments)
  }

  /** Appending an EXTINF and the reference of a component that is there keeps a playlist valid. */
  lemma AppendSegment(lines: seq<Line>, files: Files, requireEnd: bool, inf: Line, ref: Line)
    requires Valid(lines, files, requireEnd)
    requires inf.kind.ExtInf? && GoodDuration(inf.kind.duration)
    requires ref.kind.Reference? && IsSegmentName(ref.kind.path) && Playable(files, ref.kind.path)
    ensures Valid(lines + [inf, ref], files, requireEnd)
    ensures References(lines + [inf, ref]) == (References(lines).0, References(lines).1 + [ref.kind.path])
  {
    var all, n := lines + [inf, ref], |lines|;
    ScanMeans(lines, n);
    ScanPrefix(lines, [inf, ref], n);
    assert all[n] == inf && all[n + 1] == ref;
    assert ScanTo(all, n + 1) == OneLine(ScanTo(all, n), inf);
    assert ScanTo(all, n + 2) == OneLine(ScanTo(all, n + 1), ref);
    FirstErrorAppends(files, ScanTo(lines, n).segments, ref.kind.path, SegmentError);
  }

  // ----- the end list ---------------------------------------------------------------------------------------

  predicate Mentioned(lines: seq<Line>) {
    exists line :: line in lines && line.Mentions()
  }

  /** The playlist without trailing blank lines. */
  function Trimmed(lines: seq<Line>): (t: seq<Line>)
    ensures t <= lines && forall i | |t| <= i < |lines| :: lines[i].kind.Blank?
    ensures t != [] ==> !t[|t| - 1].kind.Blank?
  {
    if lines != [] && lines[|lines| - 1].kind.Blank? then Trimmed(lines[..|lines| - 1]) else lines
  }

  /** What completing an unfinished playlist writes. */
  function Ended(lines: seq<Line>): seq<Line> {
    Trimmed(lines) + [END]
  }

  /** The playlist after the end list has been ensured. */
  function WithEndList(lines: seq<Line>, files: Files): seq<Line> {
    if Mentioned(lines) || !Valid(lines, files, false) then lines else Ended(lines)
  }

  lemma {:induction false} BlanksScanNothing(lines: seq<Line>, n: nat, m: nat)
    requires 1 <= n <= m <= |lines| && forall i | n <= i < m :: lines[i].kind.Blank?
    ensures ScanTo(lines, m) == ScanTo(lines, n)
    decreases m
  {
    if n < m {
      BlanksScanNothing(lines, n, m - 1);
    }
  }

  lemma EndedScan(lines: seq<Line>)
    requires lines != [] && lines[0].kind.Header? && ScanTo(lines, |lines|).Good?
    ensures Ended(lines)[0].kind.Header?
    ensures ScanTo(Ended(lines), |Ended(lines)|) == ScanTo(lines, |lines|).(ended := true)
  {
    var t := Trimmed(lines);
    assert t != [];
    BlanksScanNothing(lines, |t|, |lines|);
    assert t + lines[|t|..] == lines;
    ScanPrefix(t, lines[|t|..], |t|);
    ScanPrefix(t, [END], |t|);
  }

  /** The lines hold a real end tag. */
  predicate HasEndList(lines: seq<Line>) {
    exists i :: 1 <= i < |lines| && lines[i].kind.EndList?
  }

  /** Ensuring the end list makes a valid playlist valid with the end list required exactly when the tag was
      really there or occurred in no line at all; either way it keeps the references, and doing it again
      changes nothing. */
  lemma EndListTheorem(lines: seq<Line>, files: Files)
    requires Valid(lines, files, false)
    ensures var t := WithEndList(lines, files);
      && (Valid(t, files, true) <==> HasEndList(lines) || !Mentioned(lines))
      && Valid(t, files, false) && References(t) == References(lines) && WithEndList(t, files) == t
  {
    ScanMeans(lines, |lines|);
    if !Mentioned(lines) {
      EndedScan(lines);
      var t := Ended(lines);
      assert t[|t| - 1] in t && t[|t| - 1].Mentions();
    }
  }

  /** What is written: the lines up to the last that is not blank, and the end tag. */
  lemma EndWrittenOutcome(lines: seq<Line>, files: Files)
    requires Valid(lines, files, false) && !Mentioned(lines)
    ensures exists n :: 0 < n <= |lines| && !lines[n - 1].kind.Blank? && (forall i | n <= i < |lines| :: lines[i].kind.Blank?)
                        && WithEndList(lines, files) == lines[..n] + [Line(EndList, true)]
  {
    var t := Trimmed(lines);
    assert t != [] && t == lines[..|t|];
  }

  // ----- the live check ------------------------------------------------------------------------------------------

  datatype Live = Live(init: Option<string>, pending: bool)

  /** What the live check knows after a line: it goes on, or has decided. */
  datatype Progress = Continue(state: Live) | Decided(ready: bool)

  function LiveLine(s: Live, line: Line, files: Files): Progress {
    match line.kind
    case ExtMap(uri) => if uri.None? then Decided(false) else Continue(s.(init := uri))
    case ExtInf(duration) =>
      if s.pending || !GoodDuration(duration) then Decided(false) else Continue(s.(pending := true))
    case Reference(path) =>
      Decided(s.pending && IsSegmentName(path) && s.init.Some? && Playable(files, s.init.value) && Playable(files, path))
    case _ => Continue(s)
  }

  function LiveTo(lines: seq<Line>, n: nat, files: Files): Progress
    requires 1 <= n <= |lines|
  {
    if n == 1 then Continue(Live(None, false))
    else
      var before := LiveTo(lines, n - 1, files);
      if before.Decided? then before else LiveLine(before.state, lines[n - 1], files)
  }

  /** The verdict of the live check on the inspected lines. */
  predicate LiveReady(lines: seq<Line>, files: Files) {
    lines != [] && lines[0].kind.Header? && LiveTo(lines, |lines|, files) == Decided(true)
  }

  /** The first media reference is the line at `f`. */
  predicate FirstReference(lines: seq<Line>, f: int) {
    IsReference(lines, f) && forall j | 1 <= j < f :: !lines[j].kind.Reference?
  }

  ghost predicate Mapped(lines: seq<Line>, n: int) {
    exists m :: m < n && IsMap(lines, m)
  }

  /** Every EXTINF before `n` comes after some EXT-X-MAP. */
  ghost predicate MapsFirst(lines: seq<Line>, n: int) {
    forall i | IsExtInf(lines, i) && i < n :: Mapped(lines, i)
  }

  ghost predicate MapsPlay(lines: seq<Line>, n: int, files: Files) {
    forall m | IsMap(lines, m) && m < n && lines[m].kind.uri.Some? :: Playable(files, lines[m].kind.uri.value)
  }

  /** What the live check knows, in terms of the scan. */
  predicate Agrees(s: Scan, l: Live)
    requires s.Good?
  {
    s.segments == [] && l.pending == s.pending
    && l.init == if s.inits == [] then None else Some(s.inits[|s.inits| - 1])
  }

  lemma ScanMapped(lines: seq<Line>, n: nat)
    requires 1 <= n <= |lines| && ScanTo(lines, n).Good?
    ensures ScanTo(lines, n).mapped <==> Mapped(lines, n)
  {
    ScanMeans(lines, n);
  }

  lemma LiveFollowsOneLine(s: Scan, l: Live, line: Line, files: Files)
    requires s.Good? && Agrees(s, l) && !line.kind.Reference?
    ensures OneLine(s, line).Good? <==> LiveLine(l, line, files).Continue? && (line.kind.ExtInf? ==> s.mapped)
    ensures OneLine(s, line).Good? ==> Agrees(OneLine(s, line), LiveLine(l, line, files).state)
    ensures LiveLine(l, line, files).Decided? ==> !LiveLine(l, line, files).ready
  {
  }

  /** Before the first reference the two loops differ only in asking for the map before the EXTINF. */
  lemma {:induction false} LiveFollowsScan(lines: seq<Line>, n: nat, files: Files)
    requires 1 <= n <= |lines| && forall j | 1 <= j < n :: !lines[j].kind.Reference?
    ensures ScanTo(lines, n).Good? <==> LiveTo(lines, n, files).Continue? && MapsFirst(lines, n)
    ensures ScanTo(lines, n).Good? ==> Agrees(ScanTo(lines, n), LiveTo(lines, n, files).state)
    ensures LiveTo(lines, n, files).Decided? ==> !LiveTo(lines, n, files).ready
  {
    if n > 1 {
      LiveFollowsScan(lines, n - 1, files);
      if ScanTo(lines, n - 1).Good? {
        ScanMapped(lines, n - 1);
        LiveFollowsOneLine(ScanTo(lines, n - 1), LiveTo(lines, n - 1, files).state, lines[n - 1], files);
      }
      assert IsExtInf(lines, n - 1) <==> lines[n - 1].kind.ExtInf?;
    }
  }

  lemma {:induction false} LiveStaysDecided(lines: seq<Line>, n: nat, m: nat, files: Files)
    requires 1 <= n <= m <= |lines| && LiveTo(lines, n, files).Decided?
    ensures LiveTo(lines, m, files) == LiveTo(lines, n, files)
    decreases m
  {
    if n < m {
      LiveStaysDecided(lines, n, m - 1, files);
    }
  }

  lemma {:induction false} LivePrefix(lines: seq<Line>, seen: seq<Line>, n: nat, files: Files)
    requires 1 <= n <= |lines| && n <= |seen| && lines[..n] == seen[..n]
    ensures LiveTo(lines, n, files) == LiveTo(seen, n, files)
  {
    if n > 1 {
      assert lines[..n - 1] == lines[..n][..n - 1] && seen[..n - 1] == seen[..n][..n - 1];
      assert lines[n - 1] == lines[..n][n - 1] && seen[n - 1] == seen[..n][n - 1];
      LivePrefix(lines, seen, n - 1, files);
    }
  }

  lemma LiveDecides(lines: seq<Line>, f: int, files: Files)
    requires FirstReference(lines, f)
    ensures LiveTo(lines, f + 1, files).Decided? && LiveTo(lines, |lines|, files) == LiveTo(lines, f + 1, files)
  {
    LiveStaysDecided(lines, f + 1, |lines|, files);
  }

  /** Up to its first reference a playlist is valid exactly when it is live-ready, has its map before its
      EXTINF, and all its maps are playable. */
  lemma LiveExactly(lines: seq<Line>, f: int, files: Files)
    requires FirstReference(lines, f) && f == |lines| - 1
    ensures Valid(lines, files, false) <==> LiveReady(lines, files) && MapsFirst(lines, f) && MapsPlay(lines, f, files)
  {
    LiveFollowsScan(lines, f, files);
    LiveDecides(lines, f, files);
    if ScanTo(lines, f).Good? {
      InitsPlay(lines, f, files);
      ScanMeans(lines, f);
      var s := ScanTo(lines, f);
      assert s.inits != [] ==> s.inits[|s.inits| - 1] in s.inits;
      assert FirstError(files, [lines[f].kind.path], SegmentError) == SegmentError(files, lines[f].kind.path);
    }
  }

  lemma InitsPlay(lines: seq<Line>, n: nat, files: Files)
    requires 1 <= n <= |lines| && ScanTo(lines, n).Good?
    ensures MapsPlay(lines, n, files) <==> FirstError(files, ScanTo(lines, n).inits, InitError).None?
    ensures FirstError(files, ScanTo(lines, n).inits, InitError).None?
            <==> forall p | p in ScanTo(lines, n).inits :: Playable(files, p)
  {
    ScanMeans(lines, n);
    var s := ScanTo(lines, n);
    if MapsPlay(lines, n, files) {
      forall p | p in s.inits ensures Playable(files, p) {
        var m :| m < n && IsMap(lines, m) && lines[m].kind.uri == Some(p);
      }
    }
    assert forall p :: InitError(files, p).None? <==> Playable(files, p);
    forall m | IsMap(lines, m) && m < n && lines[m].kind.uri.Some? ensures lines[m].kind.uri.value in s.inits {
    }
  }

  /** The accumulators only grow, and a reference needs a map. */
  lemma {:induction false} ScanGrows(lines: seq<Line>, n: nat, m: nat)
    requires 1 <= n <= m <= |lines| && ScanTo(lines, m).Good?
    ensures ScanTo(lines, n).Good?
    ensures var s, t := ScanTo(lines, n), ScanTo(lines, m);
      s.inits <= t.inits && s.segments <= t.segments && (s.mapped ==> t.mapped)
      && (t.mapped <==> t.inits != []) && (t.pending || t.segments != [] ==> t.mapped)
    decreases m
  {
    if n < m {
      ScanGrows(lines, n, m - 1);
    } else if n > 1 {
      ScanGrows(lines, n - 1, n - 1);
    }
  }

  /** A valid playlist stays valid when cut after its first reference. */
  lemma ValidUpToFirst(lines: seq<Line>, f: int, files: Files, requireEnd: bool)
    requires Valid(lines, files, requireEnd) && FirstReference(lines, f)
    ensures Valid(lines[..f + 1], files, false)
  {
    var p := lines[..f + 1];
    assert p + lines[f + 1..] == lines;
    ScanPrefix(p, lines[f + 1..], f + 1);
    ScanGrows(lines, f + 1, |lines|);
    ScanGrows(lines, f, f + 1);
    ScanGrows(lines, f + 1, f + 1);
  }

  /** A valid playlist is live-ready once its first reference lies within the inspected part, whatever
      follows it there (the last inspected line may be cut short). */
  lemma ValidIsLive(lines: seq<Line>, seen: seq<Line>, f: int, files: Files, requireEnd: bool)
    requires Valid(lines, files, requireEnd) && FirstReference(lines, f)
    requires f < |seen| && seen[..f + 1] == lines[..f + 1]
    ensures LiveReady(seen, files)
  {
    var p := lines[..f + 1];
    ValidUpToFirst(lines, f, files, requireEnd);
    assert FirstReference(p, f);
    LiveExactly(p, f, files);
    LivePrefix(p, seen, f + 1, files);
    LiveStaysDecided(seen, f + 1, |seen|, files);
    assert seen[0] == seen[..f + 1][0];
  }

  const LATE_MAP := [Line(Header, false), Line(ExtInf(Some(4.0)), false), Line(ExtMap(Some("init.mp4")), false),
                     Line(Reference("a.m4s"), false)]

  /** The live check accepts a playlist whose EXTINF precedes its map; the validator does not. */
  lemma LiveAcceptsLateMap(files: Files)
    requires Playable(files, "init.mp4") && Playable(files, "a.m4s")
    ensures LiveReady(LATE_MAP, files) && !Valid(LATE_MAP, files, false)
  {
    assert LiveTo(LATE_MAP, 1, files) == Continue(Live(None, false));
    assert LiveTo(LATE_MAP, 2, files) == Continue(Live(None, true));
    assert LiveTo(LATE_MAP, 3, files) == Continue(Live(Some("init.mp4"), true));
    assert "a.m4s"[|"a.m4s"| - 4..] == ".m4s";
    assert LiveTo(LATE_MAP, 4, files) == Decided(true);
    assert ScanTo(LATE_MAP, 1).Good?;
    assert ScanTo(LATE_MAP, 2).Bad? && ScanTo(LATE_MAP, 3).Bad? && ScanTo(LATE_MAP, 4).Bad?;
  }
}
