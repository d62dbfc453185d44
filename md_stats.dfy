/**
 * The statistics manager's bookkeeping: the folders above a file, the
 * versioned per-file count cache, the per-folder totals it keeps in step
 * when a file's count changes, and the texts of the status bar and badges.
 */
module MdStats {
  import opened Wrappers
  import opened Text
  import opened Seqs

  /* --------------------------------------------------------- ancestor paths */

  /** `s` without its leading `/` characters. */
  function DropLeadingSlashes(s: string): (r: string)
    ensures r == [] || r[0] != '/'
    ensures |r| <= |s| && r == s[|s| - |r|..]
    decreases |s|
  {
    if s != [] && s[0] == '/' then DropLeadingSlashes(s[1..]) else s
  }

  /** `s` without its trailing `/` characters. */
  function DropTrailingSlashes(s: string): (r: string)
    ensures r == [] || r[|r| - 1] != '/'
    ensures |r| <= |s| && r == s[..|r|]
    decreases |s|
  {
    if s != [] && s[|s| - 1] == '/' then DropTrailingSlashes(s[..|s| - 1]) else s
  }

  /** `filePath.replace(/^\/+|\/+$/g, "")`. */
  function TrimSlashes(filePath: string): (r: string)
    ensures r == [] || (r[0] != '/' && r[|r| - 1] != '/')
  {
    var r := DropTrailingSlashes(DropLeadingSlashes(filePath));
    assert r != [] ==> r[0] == DropLeadingSlashes(filePath)[0];
    r
  }

  /** The segments of the trimmed path. */
  function Segments(filePath: string): (r: seq<string>)
    ensures |r| >= 1
  {
    Split(TrimSlashes(filePath), '/')
  }

  /**
   * The root `""` and then the first `n` segments joined by `/`, one more at a
   * time: `""`, `parts[0]`, `parts[0]/parts[1]`, ...
   */
  function PrefixPaths(parts: seq<string>, n: nat): (r: seq<string>)
    requires n < |parts|
    ensures |r| == n + 1 && r[0] == ""
  {
    if n == 0 then [""] else PrefixPaths(parts, n - 1) + [Join(parts[..n], "/")]
  }

  /**
   * The folders above a file: the vault root `""`, then the first segment, the
   * first two segments joined by `/`, and so on up to the file's own folder.
   */
  function Ancestors(filePath: string): (r: seq<string>)
    ensures |r| >= 1 && r[0] == ""
  {
    var parts := Segments(filePath);
    if |parts| <= 1 then [""] else PrefixPaths(parts, |parts| - 1)
  }

  /** Entry `k` of the prefix paths, past the root, joins the first `k` segments. */
  lemma {:induction false} PrefixPathsAt(parts: seq<string>, n: nat, k: nat)
    requires n < |parts| && 1 <= k <= n
    ensures PrefixPaths(parts, n)[k] == Join(parts[..k], "/")
  {
    if k < n {
      PrefixPathsAt(parts, n - 1, k);
    }
  }

  /** The paths of a list, as a set. */
  function Members(paths: seq<string>): (r: set<string>)
    ensures forall p :: p in r <==> p in paths
  {
    set p | p in paths
  }

  /** The ancestors as a set, the folders a change in the file touches. */
  function AncestorSet(filePath: string): (r: set<string>)
    ensures forall p :: p in r <==> p in Ancestors(filePath)
  {
    Members(Ancestors(filePath))
  }

  /** A split of a text that does not start with `d` has a non-empty first piece. */
  lemma {:induction false} SplitHeadNonEmpty(s: string, d: char)
    requires s != [] && s[0] != d
    ensures Split(s, d)[0] != []
  {
  }

  /** A path of several segments does not start with an empty one, since the leading slashes are trimmed. */
  lemma {:induction false} FirstSegmentNonEmpty(filePath: string)
    requires |Segments(filePath)| > 1
    ensures Segments(filePath)[0] != []
  {
    var normalized := TrimSlashes(filePath);
    assert Split([], '/') == [[]];
    SplitHeadNonEmpty(normalized, '/');
  }

  /** A join is at least as long as its first part. */
  lemma {:induction false} JoinHeadLength(parts: seq<string>, sep: string)
    requires |parts| >= 1
    ensures |Join(parts, sep)| >= |parts[0]|
  {
  }

  /**
   * `getAncestorFolderPaths`: the segments of the trimmed path are joined one
   * more at a time, and each non-empty prefix is pushed after the root.
   */
  method GetAncestorFolderPaths(filePath: string) returns (result: seq<string>)
    ensures result == Ancestors(filePath)
  {
    var normalized := TrimSlashes(filePath);
    var parts := Split(normalized, '/');
    if |parts| <= 1 {
      return [""];
    }
    FirstSegmentNonEmpty(filePath);
    result := [""];
    var current := "";
    for i := 0 to |parts| - 1
      invariant Built(parts, i, current, result)
    {
      var next := if current != "" then current + "/" + parts[i] else parts[i];
      BuildStep(parts, i, current, result);
      current := next;
      if current != "" {
        result := result + [current];
      }
    }
  }

  /** Loop invariant of `getAncestorFolderPaths`: `current` joins the first `i` segments, `result` holds their prefixes. */
  ghost predicate Built(parts: seq<string>, i: nat, current: string, result: seq<string>)
  {
    i < |parts| && current == (if i == 0 then "" else Join(parts[..i], "/"))
    && result == PrefixPaths(parts, i)
  }

  /** One more segment keeps the invariant, because the first segment is not empty. */
  lemma {:induction false} BuildStep(parts: seq<string>, i: nat, current: string, result: seq<string>)
    requires Built(parts, i, current, result) && i + 1 < |parts| && parts[0] != []
    ensures var next := if current != "" then current + "/" + parts[i] else parts[i];
            next != "" && Built(parts, i + 1, next, result + [next])
  {
    JoinHeadLength(parts[..i + 1], "/");
    if current != "" {
      JoinAppend(parts[..i], parts[i], "/");
      assert parts[..i] + [parts[i]] == parts[..i + 1];
    } else {
      JoinCons(parts[0], [], "/");
      assert [parts[0]] == parts[..1];
    }
  }

  /** A path with k segments has k ancestors: the root and k - 1 folders. */
  lemma {:induction false} AncestorsCount(filePath: string)
    ensures |Ancestors(filePath)| == |Segments(filePath)|
  {
  }

  /** Each ancestor below the root is its parent followed by `/` and one more segment. */
  lemma {:induction false} AncestorsChain(filePath: string, k: nat)
    requires 1 <= k < |Ancestors(filePath)| - 1
    ensures var parts := Segments(filePath);
            Ancestors(filePath)[k + 1] == Ancestors(filePath)[k] + "/" + parts[k]
  {
    var parts := Segments(filePath);
    PrefixPathsAt(parts, |parts| - 1, k);
    PrefixPathsAt(parts, |parts| - 1, k + 1);
    JoinAppend(parts[..k], parts[k], "/");
    assert parts[..k] + [parts[k]] == parts[..k + 1];
  }

  /** Every ancestor is a prefix of the next one, and the first folder is the first segment. */
  lemma {:induction false} AncestorsPrefixes(filePath: string)
    ensures var r := Ancestors(filePath);
            forall k :: 0 <= k < |r| - 1 ==> StartsWith(r[k + 1], r[k])
    ensures |Ancestors(filePath)| > 1 ==> Ancestors(filePath)[1] == Segments(filePath)[0]
  {
    var r := Ancestors(filePath);
    var parts := Segments(filePath);
    if |r| > 1 {
      PrefixPathsAt(parts, |parts| - 1, 1);
      assert parts[..1] == [parts[0]];
      forall k | 1 <= k < |r| - 1
        ensures StartsWith(r[k + 1], r[k])
      {
        AncestorsChain(filePath, k);
        assert r[k + 1][..|r[k]|] == r[k];
      }
    }
  }

  /** Ancestors grow strictly longer, so none is listed twice. */
  lemma {:induction false} AncestorsDistinct(filePath: string)
    ensures NoDups(Ancestors(filePath))
  {
    var r := Ancestors(filePath);
    var parts := Segments(filePath);
    if |r| > 1 {
      FirstSegmentNonEmpty(filePath);
      PrefixPathsAt(parts, |parts| - 1, 1);
      assert parts[..1] == [parts[0]];
      forall k | 0 <= k < |r| - 1
        ensures |r[k]| < |r[k + 1]|
      {
        if k >= 1 {
          AncestorsChain(filePath, k);
        }
      }
      LengthsIncrease(r);
    }
  }

  lemma {:induction false} LengthsIncrease(r: seq<string>)
    requires forall k :: 0 <= k < |r| - 1 ==> |r[k]| < |r[k + 1]|
    ensures NoDups(r)
  {
    forall i, j | 0 <= i < j < |r|
      ensures |r[i]| < |r[j]|
    {
      var k := i;
      while k < j
        invariant i <= k <= j && |r[i]| <= |r[k]| && (k > i ==> |r[i]| < |r[k]|)
      {
        k := k + 1;
      }
    }
  }

  /** A file in two folders: `a/b/c.md` lies under the root, `a` and `a/b`. */
  lemma {:induction false} AncestorsExample()
    ensures Ancestors("a/b/c.md") == ["", "a", "a/b"]
  {
    SegmentsExample();
    PrefixPathsExample();
  }

  lemma {:induction false} SegmentsExample()
    ensures Segments("a/b/c.md") == ["a", "b", "c.md"]
  {
    SegmentsOfJoinExample("a/b/c.md", ["a", "b", "c.md"]);
  }

  lemma {:induction false} SegmentsOfJoinExample(p: string, parts: seq<string>)
    requires p == "a/b/c.md" && parts == ["a", "b", "c.md"]
    ensures Segments(p) == parts
  {
    TrimExample();
    JoinExample();
    NoSlashExample();
    SegmentsOfJoin(p, parts);
  }

  /** A path that trimming leaves alone, joined from slash-free parts, splits back into those parts. */
  lemma {:induction false} SegmentsOfJoin(p: string, parts: seq<string>)
    requires TrimSlashes(p) == p && |parts| >= 1 && Join(parts, "/") == p
    requires forall i :: 0 <= i < |parts| ==> '/' !in parts[i]
    ensures Segments(p) == parts
  {
    SplitJoin(parts, '/');
  }

  lemma {:induction false} NoSlashExample()
    ensures forall i :: 0 <= i < |["a", "b", "c.md"]| ==> '/' !in ["a", "b", "c.md"][i]
  {
    var parts := ["a", "b", "c.md"];
    forall i | 0 <= i < |parts|
      ensures '/' !in parts[i]
    {
      assert i == 0 || i == 1 || i == 2;
    }
  }

  lemma {:induction false} TrimExample()
    ensures TrimSlashes("a/b/c.md") == "a/b/c.md"
  {
    var p := "a/b/c.md";
    assert p[0] == 'a' && p[|p| - 1] == 'd';
    assert DropLeadingSlashes(p) == p;
    assert DropTrailingSlashes(p) == p;
  }

  lemma {:induction false} JoinExample()
    ensures Join(["a", "b", "c.md"], "/") == "a/b/c.md"
  {
    var parts := ["a", "b", "c.md"];
    JoinCons("b", ["c.md"], "/");
    JoinCons("a", ["b", "c.md"], "/");
    assert ["a"] + ["b", "c.md"] == parts;
  }

  lemma {:induction false} PrefixPathsExample()
    ensures PrefixPaths(["a", "b", "c.md"], 2) == ["", "a", "a/b"]
  {
    var parts := ["a", "b", "c.md"];
    assert parts[..1] == ["a"];
    JoinCons("a", ["b"], "/");
    assert ["a"] + ["b"] == parts[..2];
    assert "a" + "/" + "b" == "a/b";
    assert PrefixPaths(parts, 1) == ["", "a"];
  }

  /* ------------------------------------------------------------------ cache */

  /** `FileCharCacheEntry`: a file's count, with the stat it was taken at and the cache version of the write. */
  datatype CacheEntry = CacheEntry(mtime: int, size: int, count: nat, version: nat)

  /** `FolderStats`: the number of Markdown files under a folder and their total count. */
  datatype FolderStats = FolderStats(fileCount: nat, charCount: int)

  /** Every entry was written at a version from 1 up to the counter. */
  predicate VersionsBelow(cache: map<string, CacheEntry>, counter: nat)
  {
    forall p :: p in cache ==> 1 <= cache[p].version <= counter
  }

  /** `fileCharCache.get(path)?.version ?? 0`. */
  function VersionOf(cache: map<string, CacheEntry>, path: string): (v: nat)
    ensures path !in cache ==> v == 0
  {
    if path in cache then cache[path].version else 0
  }

  /**
   * The cache check of `getFileCharCount`: the cached count when the entry was
   * taken at the file's current modification time and size.
   */
  function CachedCount(cache: map<string, CacheEntry>, path: string, mtime: int, size: int): (r: Option<nat>)
    ensures r.Some? <==> path in cache && cache[path].mtime == mtime && cache[path].size == size
    ensures r.Some? ==> r.value == cache[path].count
  {
    if path in cache && cache[path].mtime == mtime && cache[path].size == size then Some(cache[path].count) else None
  }

  /**
   * The folder totals after a change of `delta` in one file: each listed
   * folder already in the cache has `delta` added to its total, floored at 0.
   */
  function Shifted(folders: map<string, FolderStats>, targets: set<string>, delta: int): (r: map<string, FolderStats>)
  {
    map p | p in folders :: if p in targets then Shift(folders[p], delta) else folders[p]
  }

  function Shift(stats: FolderStats, delta: int): FolderStats
  {
    FolderStats(stats.fileCount, Max(0, stats.charCount + delta))
  }

  function Max(a: int, b: int): int { if a >= b then a else b }

  /**
   * The delta touches only the folders already cached: the same folders stay
   * cached, the others keep their totals and file counts, and every total it
   * changes is at least 0.
   */
  lemma {:induction false} ShiftedKeeps(folders: map<string, FolderStats>, targets: set<string>, delta: int)
    ensures Shifted(folders, targets, delta).Keys == folders.Keys
    ensures forall p :: p in folders ==> Shifted(folders, targets, delta)[p].fileCount == folders[p].fileCount
    ensures forall p :: p in folders && p !in targets ==> Shifted(folders, targets, delta)[p] == folders[p]
    ensures forall p :: p in folders && p in targets ==> Shifted(folders, targets, delta)[p].charCount >= 0
    ensures forall p :: p in folders && p in targets && folders[p].charCount + delta >= 0
                        ==> Shifted(folders, targets, delta)[p].charCount == folders[p].charCount + delta
  {
  }

  /** Shifting one more folder, not shifted yet, updates just that folder's entry. */
  lemma {:induction false} ShiftOneMore(folders: map<string, FolderStats>, done: set<string>, path: string, delta: int)
    requires path !in done
    ensures var before := Shifted(folders, done, delta);
            Shifted(folders, done + {path}, delta)
            == if path in before then before[path := Shift(before[path], delta)] else before
  {
  }

  /** The statistics manager's caches. */
  class StatsCache {
    /** `fileCharCache`: the last count of each file. */
    var fileCharCache: map<string, CacheEntry>
    /** `fileCharCacheVersion`: the number of writes to the file cache so far. */
    var fileCharCacheVersion: nat
    /** `folderStatsCache`: the totals of the folders counted so far. */
    var folderStatsCache: map<string, FolderStats>

    constructor ()
      ensures fileCharCache == map[] && fileCharCacheVersion == 0 && folderStatsCache == map[]
      ensures Valid()
    {
      fileCharCache := map[];
      fileCharCacheVersion := 0;
      folderStatsCache := map[];
    }

    predicate Valid()
      reads this
    {
      VersionsBelow(fileCharCache, fileCharCacheVersion)
    }

    /**
     * `updateFileCharCache`: the counter goes up by one and the entry of the
     * path is written at the new version; no other entry changes.
     */
    method UpdateFileCharCache(path: string, mtime: int, size: int, count: nat)
      requires Valid()
      modifies this
      ensures Valid()
      ensures fileCharCacheVersion == old(fileCharCacheVersion) + 1
      ensures fileCharCache == old(fileCharCache)[path := CacheEntry(mtime, size, count, fileCharCacheVersion)]
      ensures folderStatsCache == old(folderStatsCache)
    {
      fileCharCacheVersion := fileCharCacheVersion + 1;
      fileCharCache := fileCharCache[path := CacheEntry(mtime, size, count, fileCharCacheVersion)];
    }

    /**
     * `onVaultFileChanged`: a named file (a present, non-empty path) loses its
     * entry; with or without one, every folder total is forgotten.
     */
    method OnVaultFileChanged(path: Option<string>)
      requires Valid()
      modifies this
      ensures Valid()
      ensures path.Some? && path.value != "" ==> fileCharCache == old(fileCharCache) - {path.value}
      ensures path.None? || path.value == "" ==> fileCharCache == old(fileCharCache)
      ensures fileCharCacheVersion == old(fileCharCacheVersion)
      ensures folderStatsCache == map[]
    {
      if path.Some? && path.value != "" {
        fileCharCache := fileCharCache - {path.value};
      }
      folderStatsCache := map[];
    }

    /**
     * The end of the background count in `getFileCharCount`, begun when the
     * path's version was `startVersion`: if the version has moved since, the
     * fresh count is discarded and the newer cached count (or the fresh one
     * when the entry is gone) is returned; otherwise the fresh count is cached.
     */
    method FinishFileCount(path: string, mtime: int, size: int, startVersion: nat, count: nat) returns (result: nat)
      requires Valid()
      modifies this
      ensures Valid()
      ensures VersionOf(old(fileCharCache), path) != startVersion ==>
                && fileCharCache == old(fileCharCache) && fileCharCacheVersion == old(fileCharCacheVersion)
                && result == (if path in fileCharCache then fileCharCache[path].count else count)
      ensures VersionOf(old(fileCharCache), path) == startVersion ==>
                && fileCharCacheVersion == old(fileCharCacheVersion) + 1
                && fileCharCache == old(fileCharCache)[path := CacheEntry(mtime, size, count, fileCharCacheVersion)]
                && result == count
      ensures folderStatsCache == old(folderStatsCache)
    {
      var latestVersion := if path in fileCharCache then fileCharCache[path].version else 0;
      if latestVersion != startVersion {
        return if path in fileCharCache then fileCharCache[path].count else count;
      }
      UpdateFileCharCache(path, mtime, size, count);
      return count;
    }

    /**
     * `applyFolderStatsDelta`: nothing for a zero delta; otherwise every
     * ancestor folder of the file that is cached has the delta added to its
     * total, floored at 0.
     */
    method ApplyFolderStatsDelta(filePath: string, delta: int)
      modifies this
      ensures delta == 0 ==> folderStatsCache == old(folderStatsCache)
      ensures delta != 0 ==> folderStatsCache == Shifted(old(folderStatsCache), AncestorSet(filePath), delta)
      ensures fileCharCache == old(fileCharCache) && fileCharCacheVersion == old(fileCharCacheVersion)
    {
      if delta == 0 {
        return;
      }
      var paths := GetAncestorFolderPaths(filePath);
      AncestorsDistinct(filePath);
      ShiftFolders(paths, delta);
    }

    /**
     * The loop of `applyFolderStatsDelta` over distinct folder paths: each one
     * that is cached has the delta added to its total, floored at 0.
     */
    method ShiftFolders(paths: seq<string>, delta: int)
      requires NoDups(paths)
      modifies this
      ensures folderStatsCache == Shifted(old(folderStatsCache), Members(paths), delta)
      ensures fileCharCache == old(fileCharCache) && fileCharCacheVersion == old(fileCharCacheVersion)
    {
      ghost var done: set<string> := {};
      for i := 0 to |paths|
        invariant forall p :: p in done <==> p in paths[..i]
        invariant folderStatsCache == Shifted(old(folderStatsCache), done, delta)
        invariant fileCharCache == old(fileCharCache) && fileCharCacheVersion == old(fileCharCacheVersion)
      {
        var path := paths[i];
        assert path !in done;
        ShiftOneMore(old(folderStatsCache), done, path, delta);
        if path in folderStatsCache {
          var cached := folderStatsCache[path];
          folderStatsCache := folderStatsCache[path := FolderStats(cached.fileCount, Max(0, cached.charCount + delta))];
        }
        assert paths[..i + 1] == paths[..i] + [path];
        done := done + {path};
      }
      assert paths[..|paths|] == paths;
      assert done == Members(paths);
    }

    /**
     * The cache work of `handleEditorRealtimeUpdate` after an edit: the new
     * count is cached; a file not counted before makes every folder total
     * stale, otherwise the change is applied to the cached ancestors.
     */
    method OnDocumentChanged(path: string, mtime: int, size: int, fileCount: nat)
      requires Valid()
      modifies this
      ensures Valid()
      ensures fileCharCacheVersion == old(fileCharCacheVersion) + 1
      ensures fileCharCache == old(fileCharCache)[path := CacheEntry(mtime, size, fileCount, fileCharCacheVersion)]
      ensures path !in old(fileCharCache) ==> folderStatsCache == map[]
      ensures path in old(fileCharCache) && fileCount == old(fileCharCache)[path].count ==>
                folderStatsCache == old(folderStatsCache)
      ensures path in old(fileCharCache) && fileCount != old(fileCharCache)[path].count ==>
                folderStatsCache == Shifted(old(folderStatsCache), AncestorSet(path),
                                            fileCount - old(fileCharCache)[path].count)
    {
      var previous := if path in fileCharCache then Some(fileCharCache[path].count) else None;
      UpdateFileCharCache(path, mtime, size, fileCount);
      if previous.None? {
        folderStatsCache := map[];
      } else {
        var delta := fileCount - previous.value;
        if delta != 0 {
          ApplyFolderStatsDelta(path, delta);
        }
      }
    }
  }

  /** A write raises the version of the path it writes and leaves every other path's version alone. */
  lemma {:induction false} UpdateRaisesVersion(cache: map<string, CacheEntry>, counter: nat, path: string, entry: CacheEntry)
    requires VersionsBelow(cache, counter) && entry.version == counter + 1
    ensures VersionOf(cache[path := entry], path) > VersionOf(cache, path)
    ensures forall q :: q != path ==> VersionOf(cache[path := entry], q) == VersionOf(cache, q)
    ensures VersionsBelow(cache[path := entry], counter + 1)
  {
  }

  /**
   * A background count never sees its start version again once the path was
   * written in the meantime: the written version is above every version seen
   * before it, so the stale count is discarded.
   */
  lemma {:induction false} WriteInvalidatesStart(cache: map<string, CacheEntry>, counter: nat, path: string, entry: CacheEntry,
                              later: map<string, CacheEntry>)
    requires VersionsBelow(cache, counter) && entry.version == counter + 1
    requires path in later && later[path].version >= entry.version
    ensures VersionOf(later, path) != VersionOf(cache, path)
  {
  }

  /* ------------------------------------------------------------------- text */

  /** `${n}字`. */
  function CountLabel(n: nat): (r: string)
    ensures |r| >= 2 && r[|r| - 1] == '字'
  {
    NatToString(n) + "字"
  }

  /**
   * `formatCharCount` below 10000: the count and `字`. The wider counts are
   * shown in units of ten thousand and are not part of this model.
   */
  function FormatCharCount(n: int): (r: Option<string>)
    ensures r.Some? <==> n < 10000
    ensures 0 <= n < 10000 ==> r == Some(CountLabel(n))
  {
    if n < 10000 then Some(IntToString(n) + "字") else None
  }

  /** `buildStatusText`: `s字 / f字` while something counted is selected, `f字` otherwise. */
  function StatusText(fileCount: nat, selectedCount: nat): (r: string)
  {
    if selectedCount > 0 then CountLabel(selectedCount) + " / " + CountLabel(fileCount) else CountLabel(fileCount)
  }

  /** In a text that begins with a label, the first `字` ends the number. */
  lemma {:induction false} LabelMark(n: nat, x: string)
    ensures var t := CountLabel(n) + x;
            && t[|NatToString(n)|] == '字'
            && forall i :: 0 <= i < |NatToString(n)| ==> t[i] != '字'
  {
    var t := CountLabel(n) + x;
    forall i | 0 <= i < |NatToString(n)|
      ensures t[i] != '字'
    {
      assert t[i] == NatToString(n)[i] && IsDigit(NatToString(n)[i]);
    }
  }

  /** Two labels that begin two texts equally are the same label of the same number. */
  lemma {:induction false} LabelPrefix(a: nat, x: string, b: nat, y: string)
    requires CountLabel(a) + x == CountLabel(b) + y
    ensures a == b && x == y
  {
    var sa := NatToString(a);
    var sb := NatToString(b);
    var t := CountLabel(a) + x;
    LabelMark(a, x);
    LabelMark(b, y);
    assert |sa| == |sb|;
    assert sa == t[..|sa|] == sb;
    NatToStringInjective(a, b);
    assert x == t[|sa| + 1..] == y;
  }

  /** A status text shows the file count, and the selection count when there is one. */
  lemma {:induction false} StatusTextShape(fileCount: nat, selectedCount: nat)
    ensures selectedCount > 0 ==> StatusText(fileCount, selectedCount) == CountLabel(selectedCount) + " / " + CountLabel(fileCount)
    ensures selectedCount == 0 ==> StatusText(fileCount, selectedCount) == CountLabel(fileCount)
    ensures ' ' in StatusText(fileCount, selectedCount) <==> selectedCount > 0
  {
    var f := CountLabel(fileCount);
    assert forall i :: 0 <= i < |f| ==> f[i] != ' ';
    if selectedCount > 0 {
      assert StatusText(fileCount, selectedCount)[|CountLabel(selectedCount)|] == ' ';
    }
  }

  /** The status text gives both counts back: different counts never show the same text. */
  lemma {:induction false} StatusTextInjective(f1: nat, s1: nat, f2: nat, s2: nat)
    requires StatusText(f1, s1) == StatusText(f2, s2)
    ensures f1 == f2 && s1 == s2
  {
    StatusTextShape(f1, s1);
    StatusTextShape(f2, s2);
    if s1 > 0 && s2 > 0 {
      assert CountLabel(s1) + " / " + CountLabel(f1) == CountLabel(s1) + (" / " + CountLabel(f1));
      assert CountLabel(s2) + " / " + CountLabel(f2) == CountLabel(s2) + (" / " + CountLabel(f2));
      LabelPrefix(s1, " / " + CountLabel(f1), s2, " / " + CountLabel(f2));
      assert CountLabel(f1) == (" / " + CountLabel(f1))[3..];
      assert CountLabel(f2) == (" / " + CountLabel(f2))[3..];
      LabelPrefix(f1, [], f2, []);
    } else if s1 == 0 && s2 == 0 {
      LabelPrefix(f1, [], f2, []);
    }
  }
}
