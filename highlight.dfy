/**
 * Keyword highlighting (`HighlightManager`): a file inside a novel folder is
 * mapped to a setting folder, the level-2 heading texts of that folder are
 * its keywords (cached per folder), and every literal occurrence of a
 * keyword in the document is marked.
 */
module Highlight {
  import opened Wrappers
  import opened Text
  import Sorting
  import opened TrimmedSet

  /** An entry of the `folderMappings` setting. */
  datatype FolderMapping = FolderMapping(novelFolder: string, settingFolder: string)

  /* ------------------------------------------------------- folder mapping */

  /** How many `/` the text starts with. */
  function LeadingSlashes(s: string): (n: nat)
    ensures n <= |s| && (forall i :: 0 <= i < n ==> s[i] == '/') && (n == |s| || s[n] != '/')
  {
    if s == [] || s[0] != '/' then 0 else 1 + LeadingSlashes(s[1..])
  }

  /** How many `/` the text ends with. */
  function TrailingSlashes(s: string): (n: nat)
    ensures n <= |s| && (forall i :: |s| - n <= i < |s| ==> s[i] == '/') && (n == |s| || s[|s| - n - 1] != '/')
  {
    if s == [] || s[|s| - 1] != '/' then 0 else 1 + TrailingSlashes(s[..|s| - 1])
  }

  /** `folder.replace(/^\/+|\/+$/g, "")`: the folder without slashes at either end. */
  function NormalizeFolder(folder: string): (r: string)
    ensures r == [] || (r[0] != '/' && r[|r| - 1] != '/')
    ensures LeadingSlashes(folder) + |r| <= |folder| && r == folder[LeadingSlashes(folder)..LeadingSlashes(folder) + |r|]
  {
    var t := folder[LeadingSlashes(folder)..];
    t[..|t| - TrailingSlashes(t)]
  }

  /** `filePath.replace(/^\/+/, "")`: the path without leading slashes. */
  function NormalizePath(path: string): (r: string)
    ensures r == [] || r[0] != '/'
    ensures |r| <= |path| && r == path[|path| - |r|..]
  {
    path[LeadingSlashes(path)..]
  }

  /** The mapping is complete and the file lies below its novel folder. */
  predicate Maps(m: FolderMapping, filePath: string)
  {
    m.novelFolder != [] && m.settingFolder != []
    && StartsWith(NormalizePath(filePath), NormalizeFolder(m.novelFolder) + "/")
  }

  /** The index of the first mapping that applies to the file, `|mappings|` when none does. */
  function FirstMapping(mappings: seq<FolderMapping>, filePath: string): (k: nat)
    ensures k <= |mappings|
    ensures forall j :: 0 <= j < k ==> !Maps(mappings[j], filePath)
    ensures k < |mappings| ==> Maps(mappings[k], filePath)
  {
    if mappings == [] then 0
    else if Maps(mappings[0], filePath) then 0
    else 1 + FirstMapping(mappings[1..], filePath)
  }

  /** `getSettingFolderForFile`: the setting folder of the first mapping that applies, in list order. */
  method GetSettingFolderForFile(mappings: seq<FolderMapping>, filePath: string) returns (r: Option<string>)
    ensures var k := FirstMapping(mappings, filePath);
            r == if k < |mappings| then Some(mappings[k].settingFolder) else None
    ensures r.None? <==> forall j :: 0 <= j < |mappings| ==> !Maps(mappings[j], filePath)
  {
    var i := 0;
    while i < |mappings|
      invariant i <= |mappings|
      invariant forall j :: 0 <= j < i ==> !Maps(mappings[j], filePath)
    {
      var applies := CheckMapping(mappings[i], filePath);
      if applies {
        FirstMappingIs(mappings, filePath, i);
        return Some(mappings[i].settingFolder);
      }
      i := i + 1;
    }
    FirstMappingIs(mappings, filePath, |mappings|);
    return None;
  }

  /** One step of the loop of `getSettingFolderForFile`: both fields set, and the path under the folder. */
  method CheckMapping(mapping: FolderMapping, filePath: string) returns (applies: bool)
    ensures applies <==> Maps(mapping, filePath)
  {
    if mapping.novelFolder == [] || mapping.settingFolder == [] {
      return false;
    }
    var normalizedNovelFolder := NormalizeFolder(mapping.novelFolder);
    var normalizedFilePath := NormalizePath(filePath);
    applies := StartsWith(normalizedFilePath, normalizedNovelFolder + "/");
  }

  /** The first index that applies is the one `FirstMapping` names. */
  lemma {:induction false} FirstMappingIs(mappings: seq<FolderMapping>, filePath: string, i: nat)
    requires i <= |mappings|
    requires forall j :: 0 <= j < i ==> !Maps(mappings[j], filePath)
    requires i < |mappings| ==> Maps(mappings[i], filePath)
    ensures FirstMapping(mappings, filePath) == i
  {
    if mappings != [] && i > 0 {
      FirstMappingIs(mappings[1..], filePath, i - 1);
    }
  }

  /** A path equal to the novel folder itself is not inside it. */
  lemma {:induction false} FolderItselfNotMapped(m: FolderMapping, filePath: string)
    requires NormalizePath(filePath) == NormalizeFolder(m.novelFolder)
    ensures !Maps(m, filePath)
  {
  }

  /** A complete mapping applies to every file path directly below its normalized novel folder. */
  lemma {:induction false} ChildPathMapped(m: FolderMapping, name: string)
    requires m.novelFolder != [] && m.settingFolder != []
    requires NormalizeFolder(m.novelFolder) != []
    ensures Maps(m, NormalizeFolder(m.novelFolder) + "/" + name)
  {
    var f := NormalizeFolder(m.novelFolder);
    var p := f + "/" + name;
    assert LeadingSlashes(p) == 0 by {
      assert p[0] == f[0];
    }
    assert NormalizePath(p) == p;
    assert p[..|f + "/"|] == f + "/";
  }

  /* ------------------------------------------------------------ matching */

  /** A highlighted range `[from, to)` of the document. */
  datatype Range = Range(from: nat, to: nat)

  /**
   * The matches of a global search for the literal `kw` from `from` on: each
   * search resumes where the previous match ended.
   */
  function Occurrences(text: string, kw: string, from: nat): (r: seq<Range>)
    requires |kw| > 0
    ensures forall k :: 0 <= k < |r| ==> from <= r[k].from && r[k].to == r[k].from + |kw| <= |text|
    ensures forall k :: 0 <= k < |r| - 1 ==> r[k].to <= r[k + 1].from
    decreases |text| - from
  {
    var i := IndexOfFrom(text, kw, from);
    if i == -1 then []
    else
      var rest := Occurrences(text, kw, i + |kw|);
      [Range(i, i + |kw|)] + rest
  }

  /** Each match is an occurrence of the keyword. */
  lemma {:induction false} OccurrenceIsMatch(text: string, kw: string, from: nat, k: nat)
    requires |kw| > 0 && k < |Occurrences(text, kw, from)|
    ensures IsAt(text, kw, Occurrences(text, kw, from)[k].from)
    decreases |text| - from
  {
    var index := IndexOfFrom(text, kw, from);
    OccurrencesStep(text, kw, from, index);
    var rest := Occurrences(text, kw, index + |kw|);
    if k > 0 {
      assert index != -1 && |text| - (index + |kw|) < |text| - from;
      OccurrenceIsMatch(text, kw, index + |kw|, k - 1);
      assert ([Range(index, index + |kw|)] + rest)[k] == rest[k - 1];
    } else {
      assert ([Range(index, index + |kw|)] + rest)[0].from == index;
    }
  }

  /** One search of the loop: no match ends the list, a match starts it and the search resumes after it. */
  lemma {:induction false} OccurrencesStep(text: string, kw: string, from: nat, index: int)
    requires |kw| > 0 && index == IndexOfFrom(text, kw, from)
    ensures index == -1 ==> Occurrences(text, kw, from) == []
    ensures index != -1 ==> && from <= index && index + |kw| <= |text| && IsAt(text, kw, index)
                            && Occurrences(text, kw, from) == [Range(index, index + |kw|)] + Occurrences(text, kw, index + |kw|)
  {
  }

  /** Some range of `r` contains position `i`. */
  predicate Covers(r: seq<Range>, i: nat)
  {
    exists k :: 0 <= k < |r| && r[k].from <= i < r[k].to
  }

  lemma {:induction false} CoversCons(x: Range, rest: seq<Range>, i: nat)
    requires Covers(rest, i)
    ensures Covers([x] + rest, i)
  {
    var k :| 0 <= k < |rest| && rest[k].from <= i < rest[k].to;
    assert ([x] + rest)[k + 1] == rest[k];
  }

  /** No occurrence is missed: each one starts inside a match (it is the match, or overlaps an earlier one). */
  lemma {:induction false} OccurrencesCover(text: string, kw: string, from: nat, i: nat)
    requires |kw| > 0 && from <= i && IsAt(text, kw, i)
    ensures Covers(Occurrences(text, kw, from), i)
    decreases |text| - from
  {
    var j := IndexOfFrom(text, kw, from);
    OccurrencesStep(text, kw, from, j);
    var rest := Occurrences(text, kw, j + |kw|);
    if i < j + |kw| {
      assert ([Range(j, j + |kw|)] + rest)[0].from <= i;
    } else {
      OccurrencesCover(text, kw, j + |kw|, i);
      CoversCons(Range(j, j + |kw|), rest, i);
    }
  }

  /** `regex.exec` in a loop: the matches of one keyword, left to right. */
  method FindKeyword(text: string, kw: string) returns (matches: seq<Range>)
    requires |kw| > 0
    ensures matches == Occurrences(text, kw, 0)
  {
    matches := [];
    var lastIndex := 0;
    var index := IndexOfFrom(text, kw, lastIndex);
    while index != -1
      invariant lastIndex <= |text| && index == IndexOfFrom(text, kw, lastIndex)
      invariant Found(text, kw, matches, lastIndex)
      decreases |text| - lastIndex
    {
      FindStep(text, kw, matches, lastIndex, index);
      matches := matches + [Range(index, index + |kw|)];
      lastIndex := index + |kw|;
      index := IndexOfFrom(text, kw, lastIndex);
    }
    FindDone(text, kw, matches, lastIndex);
  }

  /** The loop of `FindKeyword` has found `matches`, and the rest of the matches lie after `lastIndex`. */
  ghost predicate Found(text: string, kw: string, matches: seq<Range>, lastIndex: nat)
    requires |kw| > 0
  {
    matches + Occurrences(text, kw, lastIndex) == Occurrences(text, kw, 0)
  }

  /** One turn of the loop keeps its invariant and moves the search forward. */
  lemma {:induction false} FindStep(text: string, kw: string, matches: seq<Range>, lastIndex: nat, index: int)
    requires |kw| > 0 && index == IndexOfFrom(text, kw, lastIndex) && index != -1
    requires Found(text, kw, matches, lastIndex)
    ensures lastIndex < index + |kw| <= |text|
    ensures Found(text, kw, matches + [Range(index, index + |kw|)], index + |kw|)
  {
    OccurrencesStep(text, kw, lastIndex, index);
    Shift(matches, Range(index, index + |kw|), Occurrences(text, kw, index + |kw|));
  }

  /** When the search fails, every match has been found. */
  lemma {:induction false} FindDone(text: string, kw: string, matches: seq<Range>, lastIndex: nat)
    requires |kw| > 0 && IndexOfFrom(text, kw, lastIndex) == -1
    requires Found(text, kw, matches, lastIndex)
    ensures matches == Occurrences(text, kw, 0)
  {
    OccurrencesStep(text, kw, lastIndex, -1);
    assert matches + [] == matches;
  }

  lemma {:induction false} Shift<T>(done: seq<T>, x: T, rest: seq<T>)
    ensures (done + [x]) + rest == done + ([x] + rest)
  {
  }

  /** The matches of every keyword, keyword by keyword. */
  function AllOccurrences(text: string, keywords: seq<string>): (r: seq<Range>)
    requires forall k :: 0 <= k < |keywords| ==> |keywords[k]| > 0
  {
    if keywords == [] then []
    else AllOccurrences(text, keywords[..|keywords| - 1]) + Occurrences(text, keywords[|keywords| - 1], 0)
  }

  /** Each collected range is an occurrence of one of the keywords. */
  lemma {:induction false} AllOccurrencesAreMatches(text: string, keywords: seq<string>, m: Range)
    requires forall k :: 0 <= k < |keywords| ==> |keywords[k]| > 0
    requires m in AllOccurrences(text, keywords)
    ensures exists k :: 0 <= k < |keywords| && m.to == m.from + |keywords[k]| && IsAt(text, keywords[k], m.from)
  {
    var last := |keywords| - 1;
    var r := Occurrences(text, keywords[last], 0);
    if m in r {
      var k :| 0 <= k < |r| && r[k] == m;
      OccurrenceIsMatch(text, keywords[last], 0, k);
      assert m.to == m.from + |keywords[last]| && IsAt(text, keywords[last], m.from);
    } else {
      AllOccurrencesAreMatches(text, keywords[..last], m);
      var k :| 0 <= k < last && m.to == m.from + |keywords[..last][k]| && IsAt(text, keywords[..last][k], m.from);
      assert keywords[..last][k] == keywords[k];
    }
  }

  /** `(a, b) => a.from - b.from`. */
  function ByFrom(): (Range, Range) -> bool
  {
    (a: Range, b: Range) => a.from <= b.from
  }

  lemma {:induction false} ByFromPreorder()
    ensures Sorting.TotalPreorder(ByFrom())
  {
  }

  /** The collection loop of `updateDecorations`: every keyword's matches, then sorted by start. */
  method FindMatches(text: string, keywords: seq<string>) returns (matches: seq<Range>)
    requires forall k :: 0 <= k < |keywords| ==> |keywords[k]| > 0
    ensures matches == Sorting.Sort(AllOccurrences(text, keywords), ByFrom())
  {
    var collected: seq<Range> := [];
    for i := 0 to |keywords|
      invariant collected == AllOccurrences(text, keywords[..i])
    {
      var found := FindKeyword(text, keywords[i]);
      assert keywords[..i + 1][..i] == keywords[..i];
      collected := collected + found;
    }
    assert keywords[..|keywords|] == keywords;
    matches := Sorting.Sort(collected, ByFrom());
  }

  /**
   * The decorations are sorted by start, and each is an occurrence of a
   * keyword; ranges with the same start keep the keywords' order.
   */
  lemma {:induction false} MatchesShape(text: string, keywords: seq<string>)
    requires forall k :: 0 <= k < |keywords| ==> |keywords[k]| > 0
    ensures var r := Sorting.Sort(AllOccurrences(text, keywords), ByFrom());
            && Sorting.Sorted(r, ByFrom())
            && forall m :: m in r ==> exists k :: 0 <= k < |keywords| && m.to == m.from + |keywords[k]| && IsAt(text, keywords[k], m.from)
    ensures forall x :: Sorting.TiedWith(Sorting.Sort(AllOccurrences(text, keywords), ByFrom()), x, ByFrom())
                        == Sorting.TiedWith(AllOccurrences(text, keywords), x, ByFrom())
  {
    var all := AllOccurrences(text, keywords);
    var r := Sorting.Sort(all, ByFrom());
    ByFromPreorder();
    Sorting.SortSorted(all, ByFrom());
    forall m | m in r ensures exists k :: 0 <= k < |keywords| && m.to == m.from + |keywords[k]| && IsAt(text, keywords[k], m.from) {
      assert m in multiset(all);
      AllOccurrencesAreMatches(text, keywords, m);
    }
    forall x ensures Sorting.TiedWith(r, x, ByFrom()) == Sorting.TiedWith(all, x, ByFrom()) {
      Sorting.SortStable(all, x, ByFrom());
    }
  }

  /* ------------------------------------------------------------- manager */

  /** The keyword lists the cache holds. */
  predicate KeywordList(keywords: seq<string>)
  {
    forall k :: 0 <= k < |keywords| ==> |keywords[k]| > 0
  }

  /** The loop of `extractKeywordsFromSettingFolder`: each trimmed non-empty heading text, added to a set. */
  method CollectKeywords(h2Texts: seq<string>) returns (keywords: seq<string>)
    ensures keywords == Unique(h2Texts)
  {
    keywords := [];
    for i := 0 to |h2Texts|
      invariant keywords == Unique(h2Texts[..i])
    {
      KeywordStep(h2Texts, i);
      var text := Trim(h2Texts[i]);
      if text != [] && text !in keywords {
        keywords := keywords + [text];
      }
    }
    assert h2Texts[..|h2Texts|] == h2Texts;
  }

  /** Adding one heading text to the set collected from the earlier ones. */
  lemma {:induction false} KeywordStep(h2Texts: seq<string>, i: nat)
    requires i < |h2Texts|
    ensures var t := Trim(h2Texts[i]);
            Unique(h2Texts[..i + 1]) == Unique(h2Texts[..i]) + if t != [] && t !in Unique(h2Texts[..i]) then [t] else []
  {
    assert h2Texts[..i + 1] == h2Texts[..i] + [h2Texts[i]];
    UniqueSnoc(h2Texts[..i], h2Texts[i]);
  }

  lemma {:induction false} UniqueKeywordList(h2Texts: seq<string>)
    ensures KeywordList(Unique(h2Texts))
  {
    var u := Unique(h2Texts);
    forall k | 0 <= k < |u| ensures |u[k]| > 0 {
      assert u[k] in u;
    }
  }

  class HighlightManager {
    /** `keywordsCache`: the keywords of each setting folder read so far. */
    var keywordsCache: map<string, seq<string>>

    predicate Valid()
      reads this
    {
      forall folder :: folder in keywordsCache ==> KeywordList(keywordsCache[folder])
    }

    constructor ()
      ensures Valid() && keywordsCache == map[]
    {
      keywordsCache := map[];
    }

    /**
     * `extractKeywordsFromSettingFolder`, given the level-2 heading texts the
     * parser finds in the folder's files: a cached folder is answered without
     * reading; an empty folder name gives no keywords and is not cached;
     * otherwise the distinct trimmed non-empty texts, first seen first, are
     * cached and returned. `read` says whether the folder was read.
     */
    method ExtractKeywords(settingFolder: string, h2Texts: seq<string>) returns (keywords: seq<string>, read: bool)
      requires Valid()
      modifies this
      ensures Valid() && KeywordList(keywords)
      ensures settingFolder in old(keywordsCache) ==>
                keywords == old(keywordsCache)[settingFolder] && !read && keywordsCache == old(keywordsCache)
      ensures settingFolder !in old(keywordsCache) && settingFolder == [] ==>
                keywords == [] && !read && keywordsCache == old(keywordsCache)
      ensures settingFolder !in old(keywordsCache) && settingFolder != [] ==>
                && read && keywords == Unique(h2Texts)
                && keywordsCache == old(keywordsCache)[settingFolder := keywords]
    {
      if settingFolder in keywordsCache {
        return keywordsCache[settingFolder], false;
      }
      if settingFolder == [] {
        return [], false;
      }
      keywords := CollectKeywords(h2Texts);
      UniqueKeywordList(h2Texts);
      keywordsCache := keywordsCache[settingFolder := keywords];
      read := true;
    }

    /** `clearCache`. */
    method ClearCache()
      modifies this
      ensures Valid() && keywordsCache == map[]
    {
      keywordsCache := map[];
    }

    /**
     * `updateDecorations`, given the active file's path (if any), the folder
     * mappings, the heading texts the parser would find in its setting folder,
     * and the document: no decorations without a file, a mapped setting folder
     * or keywords; otherwise every keyword occurrence, sorted by start.
     */
    method UpdateDecorations(activeFile: Option<string>, mappings: seq<FolderMapping>, h2Texts: seq<string>, text: string)
      returns (decorations: seq<Range>)
      requires Valid()
      modifies this
      ensures Valid()
      ensures activeFile.None? || FirstMapping(mappings, activeFile.value) == |mappings| ==>
                decorations == [] && keywordsCache == old(keywordsCache)
      ensures activeFile.Some? && FirstMapping(mappings, activeFile.value) < |mappings| ==>
                var folder := mappings[FirstMapping(mappings, activeFile.value)].settingFolder;
                var keywords := if folder in old(keywordsCache) then old(keywordsCache)[folder] else Unique(h2Texts);
                && keywordsCache == old(keywordsCache)[folder := keywords]
                && KeywordList(keywords)
                && decorations == Sorting.Sort(AllOccurrences(text, keywords), ByFrom())
    {
      if activeFile.None? {
        return [];
      }
      var settingFolder := GetSettingFolderForFile(mappings, activeFile.value);
      if settingFolder.None? {
        return [];
      }
      var keywords, _ := ExtractKeywords(settingFolder.value, h2Texts);
      if |keywords| == 0 {
        return [];
      }
      decorations := FindMatches(text, keywords);
    }
  }
}
