/** The files of a recording bundle: names, the move of temporary files out of the way, and the
    component manifest with its checksum cache. */
module BundleFiles {
  import opened Domain
  import opened Playlist

  datatype Content = Text(lines: seq<Line>) | Bytes(data: seq<int>)

  datatype File = File(size: nat, mtime: int, content: Content)

  /** Regular files of the bundle by path relative to its root. */
  type Tree = map<string, File>

  const PLAYLIST := "index.m3u8"
  const MANIFEST := "manifest.json"
  const CAPTURE_STATE := "capture.json"
  const INCOMPLETE := "incomplete/"
  const SEGMENT_PREFIX := "segments/segment-"
  const SEGMENT_SUFFIX := ".m4s"

  function Sizes(files: Tree): Files {
    map p | p in files :: files[p].size
  }

  predicate StartsWith(s: string, prefix: string) {
    prefix <= s
  }

  /** The last component of a path. */
  function BaseName(path: string): string
    decreases |path|
  {
    if path == "" || path[|path| - 1] == '/' then ""
    else BaseName(path[..|path| - 1]) + [path[|path| - 1]]
  }

  // ----- decimal numerals ----------------------------------------------------------------------

  predicate IsDigit(c: char) {
    '0' <= c <= '9'
  }

  predicate IsNumeral(s: string) {
    s != "" && forall c | c in s :: IsDigit(c)
  }

  function Digit(d: nat): (c: char)
    requires d < 10
    ensures IsDigit(c)
  {
    '0' + d as char
  }

  function Decimal(n: nat): (s: string)
    ensures IsNumeral(s)
  {
    if n < 10 then [Digit(n)] else Decimal(n / 10) + [Digit(n % 10)]
  }

  /** At least six digits, as the recorder names segments. */
  function Padded(n: nat): (s: string)
    ensures IsNumeral(s)
  {
    LeftPad(Decimal(n))
  }

  function LeftPad(s: string): (t: string)
    requires IsNumeral(s)
    ensures IsNumeral(t)
    decreases 6 - |s|
  {
    if |s| >= 6 then s else LeftPad("0" + s)
  }

  function Value(s: string): nat
    requires forall c | c in s :: IsDigit(c)
  {
    if s == "" then 0
    else
      assert IsDigit(s[|s| - 1]);
      10 * Value(s[..|s| - 1]) + (s[|s| - 1] as int - '0' as int)
  }

  lemma {:induction false} DecimalValue(n: nat)
    ensures Value(Decimal(n)) == n
  {
    if n >= 10 {
      DecimalValue(n / 10);
      assert Decimal(n)[..|Decimal(n)| - 1] == Decimal(n / 10);
    }
  }

  lemma {:induction false} LeadingZero(s: string)
    requires IsNumeral(s)
    ensures Value("0" + s) == Value(s)
    decreases |s|
  {
    var t := "0" + s;
    assert forall c | c in t :: IsDigit(c);
    if |s| == 1 {
      assert t[..1] == "0" && s[..0] == "";
    } else {
      assert t[..|t| - 1] == "0" + s[..|s| - 1];
      LeadingZero(s[..|s| - 1]);
    }
  }

  lemma {:induction false} LeftPadValue(s: string)
    requires IsNumeral(s)
    ensures Value(LeftPad(s)) == Value(s)
    decreases 6 - |s|
  {
    if |s| < 6 {
      LeadingZero(s);
      LeftPadValue("0" + s);
    }
  }

  lemma DecimalInjective(m: nat, n: nat)
    requires Decimal(m) == Decimal(n)
    ensures m == n
  {
    DecimalValue(m);
    DecimalValue(n);
  }

  // ----- segments -----------------------------------------------------------------------------------

  /** The index in a segment's file name, if it has the form the recorder gives it. */
  function SegmentIndex(path: string): Option<nat> {
    if StartsWith(path, SEGMENT_PREFIX) && EndsWith(path, SEGMENT_SUFFIX)
       && |SEGMENT_PREFIX| + |SEGMENT_SUFFIX| < |path|
       && IsNumeral(path[|SEGMENT_PREFIX|..|path| - |SEGMENT_SUFFIX|])
    then Some(Value(path[|SEGMENT_PREFIX|..|path| - |SEGMENT_SUFFIX|]))
    else None
  }

  function SegmentName(n: nat): string {
    SEGMENT_PREFIX + Padded(n) + SEGMENT_SUFFIX
  }

  /** The file name FFmpeg gives segment `n` reads back as `n`. */
  lemma SegmentNameIndex(n: nat)
    ensures SegmentIndex(SegmentName(n)) == Some(n)
  {
    var path := SegmentName(n);
    assert path[|SEGMENT_PREFIX|..|path| - |SEGMENT_SUFFIX|] == Padded(n);
    assert path[|path| - |SEGMENT_SUFFIX|..] == SEGMENT_SUFFIX;
    DecimalValue(n);
    LeftPadValue(Decimal(n));
  }

  /** Zeros in front make a numeral six digits long; a longer one stays. */
  lemma {:induction false} LeftPadOutcome(s: string)
    requires IsNumeral(s)
    ensures |LeftPad(s)| == Max(6, |s|) && LeftPad(s)[|LeftPad(s)| - |s|..] == s
    ensures forall i | 0 <= i < |LeftPad(s)| - |s| :: LeftPad(s)[i] == '0'
    decreases 6 - |s|
  {
    if |s| < 6 {
      LeftPadOutcome("0" + s);
      var t := LeftPad(s);
      assert t[|t| - |s|..] == t[|t| - |s| - 1..][1..];
      assert t[|t| - |s| - 1] == t[|t| - |s| - 1..][0] == '0';
    }
  }

  /** The name of segment `n`: six digits or more between the recorder's prefix and suffix. */
  lemma SegmentNameOutcome(n: nat)
    ensures exists digits: string ::
              && SegmentName(n) == "segments/segment-" + digits + ".m4s" && IsNumeral(digits) && Value(digits) == n
              && |digits| >= 6 && (|digits| > 6 ==> digits[0] != '0')
  {
    LeftPadOutcome(Decimal(n));
    LeftPadValue(Decimal(n));
    DecimalValue(n);
    if |Decimal(n)| > 1 {
      NoLeadingZero(n);
    }
    assert SegmentName(n) == "segments/segment-" + Padded(n) + ".m4s";
  }

  lemma {:induction false} NoLeadingZero(n: nat)
    requires n > 0
    ensures Decimal(n)[0] != '0'
  {
    if n >= 10 {
      NoLeadingZero(n / 10);
    }
  }

  // ----- temporary files ----------------------------------------------------------------------------

  /** A temporary file that finalization must preserve. */
  predicate Temporary(path: string) {
    EndsWith(path, ".tmp") && !StartsWith(path, INCOMPLETE) && !StartsWith(BaseName(path), "." + MANIFEST)
  }

  function Temporaries(files: Tree): set<string> {
    set p | p in files && Temporary(p)
  }

  /** The name tried for a preserved file; `k` is 0 for its own name. */
  function TargetName(path: string, k: nat): string {
    INCOMPLETE + BaseName(path) + if k == 0 then "" else "." + Decimal(k)
  }

  lemma TargetNameInjective(path: string, j: nat, k: nat)
    requires TargetName(path, j) == TargetName(path, k)
    ensures j == k
  {
    var n := |INCOMPLETE + BaseName(path)|;
    assert TargetName(path, j)[n..] == if j == 0 then "" else "." + Decimal(j);
    assert TargetName(path, k)[n..] == if k == 0 then "" else "." + Decimal(k);
    if j != 0 && k != 0 {
      assert ("." + Decimal(j))[1..] == Decimal(j) && ("." + Decimal(k))[1..] == Decimal(k);
      DecimalInjective(j, k);
    }
  }

  function Moved(files: Tree, from: string, to: string): Tree
    requires from in files
  {
    (files - {from})[to := files[from]]
  }

  ghost predicate NamedAfter(target: string, path: string) {
    exists k: nat :: target == TargetName(path, k)
  }

  /** The file stayed, or is a moved one. */
  predicate Accounted(before: Tree, moves: map<string, string>, p: string) {
    (p in before && p !in moves) || p in moves.Values
  }

  ghost predicate NothingNew(before: Tree, after: Tree, moves: map<string, string>) {
    forall p {:trigger Accounted(before, moves, p)} | p in after :: Accounted(before, moves, p)
  }

  /** Every moved file is under its new, formerly free name. */
  ghost predicate Delivered(before: Tree, after: Tree, moves: map<string, string>) {
    forall p | p in moves && p in before ::
      moves[p] !in before && moves[p] in after && after[moves[p]] == before[p] && NamedAfter(moves[p], p)
  }

  ghost predicate Distinct(moves: map<string, string>) {
    forall p, r | p in moves && r in moves && moves[p] == moves[r] :: p == r
  }

  ghost predicate OthersStay(before: Tree, after: Tree, moves: map<string, string>) {
    forall p | p in before && p !in moves :: p in after && after[p] == before[p]
  }

  /** The files of `moves`, and no others, went each to a name of its own that was free. */
  ghost predicate MovedBy(before: Tree, after: Tree, moves: map<string, string>) {
    Delivered(before, after, moves) && Distinct(moves) && OthersStay(before, after, moves) && NothingNew(before, after, moves)
  }

  ghost predicate Preserves(before: Tree, after: Tree, moves: map<string, string>) {
    moves.Keys == Temporaries(before) && MovedBy(before, after, moves)
  }

  lemma TargetsAreNotTemporary(path: string, k: nat)
    ensures !Temporary(TargetName(path, k))
  {
    assert TargetName(path, k)[..|INCOMPLETE|] == INCOMPLETE;
  }

  /** A second pass finds nothing to move. */
  lemma PreservedOnce(before: Tree, after: Tree, moves: map<string, string>, later: Tree, again: map<string, string>)
    requires Preserves(before, after, moves) && Preserves(after, later, again)
    ensures again == map[] && later == after
  {
    forall p | p in after ensures !Temporary(p) {
      assert Accounted(before, moves, p);
      if p in moves.Values {
        var r :| r in moves && moves[r] == p;
        var k: nat :| moves[r] == TargetName(r, k);
        TargetsAreNotTemporary(r, k);
      }
    }
    assert again.Keys == {};
    forall p | p in later ensures p in after {
      assert Accounted(after, again, p);
    }
  }

  /** Every suffix below `k` being taken, the search ends within the files there are. */
  lemma SuffixSearchEnds(files: Tree, path: string, k: nat)
    requires forall j: nat | j < k :: TargetName(path, j) in files
    ensures k <= |files|
  {
    TakenNames(path, k);
    SubsetSize(Tried(path, k), files.Keys);
  }

  /** The first `k` names. */
  function Tried(path: string, k: nat): set<string> {
    if k == 0 then {} else Tried(path, k - 1) + {TargetName(path, k - 1)}
  }

  lemma {:induction false} TakenNames(path: string, k: nat)
    ensures |Tried(path, k)| == k && forall name | name in Tried(path, k) :: exists j: nat :: j < k && name == TargetName(path, j)
  {
    if k > 0 {
      TakenNames(path, k - 1);
      if TargetName(path, k - 1) in Tried(path, k - 1) {
        var j: nat :| j < k - 1 && TargetName(path, k - 1) == TargetName(path, j);
        TargetNameInjective(path, j, k - 1);
      }
      assert TargetName(path, k - 1) !in Tried(path, k - 1);
    }
  }

  // ----- the checksum cache ------------------------------------------------------------------------

  datatype Entry = Entry(size: nat, mtime: int, digest: string)

  datatype Component = Component(size: nat, digest: string)

  /** Whether a manifest lists the file. */
  predicate Listed(path: string) {
    var name := BaseName(path);
    name != MANIFEST && name != CAPTURE_STATE && !StartsWith(name, "." + MANIFEST)
    && (EndsWith(name, ".tmp") ==> StartsWith(path, INCOMPLETE))
  }

  /** The manifest that hashes every file. */
  function Manifest(files: Tree, hash: Content -> string): map<string, Component> {
    map p | p in files && Listed(p) :: Component(files[p].size, hash(files[p].content))
  }

  /** A cached entry the fingerprint of the file still matches. */
  predicate Fresh(files: Tree, cache: map<string, Entry>, p: string) {
    p in files && p in cache && cache[p].size == files[p].size && cache[p].mtime == files[p].mtime
  }

  function Digest(files: Tree, cache: map<string, Entry>, hash: Content -> string, p: string): string
    requires p in files
  {
    if Fresh(files, cache, p) then cache[p].digest else hash(files[p].content)
  }

  /** The files a manifest lists. */
  function ListedFiles(files: Tree): set<string> {
    set p | p in files && Listed(p)
  }

  /** The part of the cached manifest that covers the given files. */
  function ManifestOn(files: Tree, cache: map<string, Entry>, hash: Content -> string, done: set<string>): map<string, Component> {
    map p | p in done && p in files :: Component(files[p].size, Digest(files, cache, hash, p))
  }

  /** The cache once the given files have been looked at. */
  function RefreshedOn(files: Tree, cache: map<string, Entry>, hash: Content -> string, done: set<string>): map<string, Entry> {
    cache + map p | p in done && p in files :: Entry(files[p].size, files[p].mtime, Digest(files, cache, hash, p))
  }

  /** The manifest that trusts the cache. */
  function CachedManifest(files: Tree, cache: map<string, Entry>, hash: Content -> string): map<string, Component> {
    ManifestOn(files, cache, hash, ListedFiles(files))
  }

  /** The cache after a refresh. */
  function Refreshed(files: Tree, cache: map<string, Entry>, hash: Content -> string): map<string, Entry> {
    RefreshedOn(files, cache, hash, ListedFiles(files))
  }

  lemma OneEntry(files: Tree, cache: map<string, Entry>, hash: Content -> string, done: set<string>, p: string)
    requires p in files && p !in done
    ensures RefreshedOn(files, cache, hash, done + {p})
            == RefreshedOn(files, cache, hash, done)[p := Entry(files[p].size, files[p].mtime, Digest(files, cache, hash, p))]
  {
  }

  lemma DigestUntouched(files: Tree, cache: map<string, Entry>, hash: Content -> string, done: set<string>, p: string)
    requires p in files && p !in done
    ensures Digest(files, RefreshedOn(files, cache, hash, done), hash, p) == Digest(files, cache, hash, p)
  {
  }

  /** A refresh lists the true digests exactly when every entry it reuses has the digest of the present content. */
  lemma CacheIsTrueExactly(files: Tree, cache: map<string, Entry>, hash: Content -> string)
    ensures CachedManifest(files, cache, hash) == Manifest(files, hash)
            <==> forall p | Listed(p) && Fresh(files, cache, p) :: cache[p].digest == hash(files[p].content)
  {
    var c, m := CachedManifest(files, cache, hash), Manifest(files, hash);
    if forall p | Listed(p) && Fresh(files, cache, p) :: cache[p].digest == hash(files[p].content) {
      forall p | p in m ensures c[p] == m[p] {
      }
    } else {
      var p :| Listed(p) && Fresh(files, cache, p) && cache[p].digest != hash(files[p].content);
      assert c[p] != m[p];
    }
  }

  /** The cache after refreshing at each of a series of moments. */
  function CacheAfter(trees: seq<Tree>, hash: Content -> string): map<string, Entry> {
    if trees == [] then map[]
    else Refreshed(trees[|trees| - 1], CacheAfter(trees[..|trees| - 1], hash), hash)
  }

  /** A file of unchanged size and modification time has unchanged content. */
  ghost predicate FingerprintsTell(trees: seq<Tree>) {
    forall i, j, p | 0 <= i < j < |trees| && p in trees[i] && p in trees[j]
      && trees[i][p].size == trees[j][p].size && trees[i][p].mtime == trees[j][p].mtime ::
      trees[i][p].content == trees[j][p].content
  }

  /** The entry was true of the file at moment `i`. */
  predicate TrueAt(trees: seq<Tree>, i: int, p: string, e: Entry, hash: Content -> string) {
    0 <= i < |trees| && p in trees[i]
    && e == Entry(trees[i][p].size, trees[i][p].mtime, hash(trees[i][p].content))
  }

  ghost predicate WasTrue(trees: seq<Tree>, cache: map<string, Entry>, hash: Content -> string) {
    forall p | p in cache :: exists i :: TrueAt(trees, i, p, cache[p], hash)
  }

  /** While fingerprints tell contents apart, no series of refreshes ever lists a stale digest. */
  lemma {:induction false} CacheTheorem(trees: seq<Tree>, now: Tree, hash: Content -> string)
    requires FingerprintsTell(trees + [now])
    ensures WasTrue(trees, CacheAfter(trees, hash), hash)
    ensures CachedManifest(now, CacheAfter(trees, hash), hash) == Manifest(now, hash)
    decreases |trees|
  {
    var all := trees + [now];
    assert all[..|trees|] == trees;
    if trees != [] {
      var n := |trees| - 1;
      assert trees[..n] + [trees[n]] == trees;
      assert forall i | 0 <= i < |trees| :: all[i] == trees[i];
      CacheTheorem(trees[..n], trees[n], hash);
      RefreshStaysTrue(trees[..n], trees[n], CacheAfter(trees[..n], hash), hash);
    }
    TrueCacheServes(trees, now, CacheAfter(trees, hash), hash);
  }

  lemma RefreshStaysTrue(trees: seq<Tree>, now: Tree, cache: map<string, Entry>, hash: Content -> string)
    requires WasTrue(trees, cache, hash) && CachedManifest(now, cache, hash) == Manifest(now, hash)
    ensures WasTrue(trees + [now], Refreshed(now, cache, hash), hash)
  {
    var all, cache' := trees + [now], Refreshed(now, cache, hash);
    forall p | p in cache' ensures exists i :: TrueAt(all, i, p, cache'[p], hash) {
      if p in now && Listed(p) {
        assert CachedManifest(now, cache, hash)[p] == Manifest(now, hash)[p];
        assert TrueAt(all, |trees|, p, cache'[p], hash);
      } else {
        var i :| TrueAt(trees, i, p, cache[p], hash);
        assert TrueAt(all, i, p, cache'[p], hash);
      }
    }
  }

  lemma TrueCacheServes(trees: seq<Tree>, now: Tree, cache: map<string, Entry>, hash: Content -> string)
    requires WasTrue(trees, cache, hash) && FingerprintsTell(trees + [now])
    ensures CachedManifest(now, cache, hash) == Manifest(now, hash)
  {
    var all := trees + [now];
    forall p | Listed(p) && Fresh(now, cache, p) ensures cache[p].digest == hash(now[p].content) {
      var i :| TrueAt(trees, i, p, cache[p], hash);
      assert all[i] == trees[i] && all[|trees|] == now;
    }
    CacheIsTrueExactly(now, cache, hash);
  }

  // ----- which files -------------------------------------------------------------------------------------

  /** A name without a slash is the last component of every path that ends in it after a directory. */
  lemma {:induction false} BaseNameOf(dir: string, name: string)
    requires (dir == "" || dir[|dir| - 1] == '/') && '/' !in name
    ensures BaseName(dir + name) == name
    decreases |name|
  {
    if name == "" {
      assert dir + name == dir;
    } else {
      var n := |name| - 1;
      assert (dir + name)[..|dir + name| - 1] == dir + name[..n];
      assert '/' !in name[..n];
      BaseNameOf(dir, name[..n]);
      assert (dir + name)[|dir + name| - 1] == name[n];
    }
  }

  /** The manifest lists every file but itself, the capture state, its own temporary files, and temporary files
      that have not been put aside. */
  lemma ListedExactly(dir: string, name: string)
    requires (dir == "" || dir[|dir| - 1] == '/') && '/' !in name
    ensures Listed(dir + name) <==>
              && name != "manifest.json" && name != "capture.json" && !(".manifest.json" <= name)
              && (|name| >= 4 && name[|name| - 4..] == ".tmp" ==> "incomplete/" <= dir + name)
  {
    BaseNameOf(dir, name);
  }

  /** Put aside are the temporary files anywhere else, but those of the manifest. */
  lemma TemporaryExactly(dir: string, name: string)
    requires (dir == "" || dir[|dir| - 1] == '/') && '/' !in name && |name| >= 4
    ensures Temporary(dir + name) <==>
              name[|name| - 4..] == ".tmp" && !("incomplete/" <= dir + name) && !(".manifest.json" <= name)
  {
    BaseNameOf(dir, name);
    EndsAlike(dir, name, ".tmp");
    assert Temporary(dir + name) <==>
             EndsWith(dir + name, ".tmp") && !StartsWith(dir + name, INCOMPLETE) && !StartsWith(name, "." + MANIFEST);
    assert "." + MANIFEST == ".manifest.json";
  }

  lemma EndsAlike(dir: string, name: string, suffix: string)
    requires |suffix| <= |name|
    ensures EndsWith(dir + name, suffix) <==> name[|name| - |suffix|..] == suffix
  {
    assert (dir + name)[|dir + name| - |suffix|..] == name[|name| - |suffix|..];
  }

  /** A refresh lists exactly those files, each with its size and with the digest remembered for its present size
      and time, or else that of its content; and it remembers what it listed, and all it remembered before. */
  lemma RefreshOutcome(files: Tree, cache: map<string, Entry>, hash: Content -> string)
    ensures var m, after := CachedManifest(files, cache, hash), Refreshed(files, cache, hash);
      && (forall p :: p in m <==> p in files && Listed(p))
      && (forall p :: p in after <==> p in cache || p in m)
      && (forall p | p in m ::
            && m[p].size == files[p].size && after[p] == Entry(files[p].size, files[p].mtime, m[p].digest)
            && m[p].digest == if p in cache && cache[p].size == files[p].size && cache[p].mtime == files[p].mtime
                              then cache[p].digest else hash(files[p].content))
      && forall p | p in cache && p !in m :: after[p] == cache[p]
  {
  }
}
