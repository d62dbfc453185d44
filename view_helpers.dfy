/**
 * Small helpers of the inspiration view: the unique path of a new card file,
 * the inline-format toggle of the body editor's context menu and the number
 * of preview lines of a collapsed card.
 */
module ViewHelpers {
  import opened Wrappers
  import opened Text
  import opened Json

  /* ------------------------------------------------------ unique file path */

  /** `-<idx>` for the second and later candidates, nothing for the first. */
  function IndexSuffix(idx: nat): string
  {
    if idx < 2 then "" else "-" + NatToString(idx)
  }

  /**
   * The `idx`-th path tried for a new card (counting from 1):
   * `<folder>/<base>.md`, then `<folder>/<base>-2.md`, `<folder>/<base>-3.md`, ...
   */
  function Candidate(folderPath: string, baseName: string, idx: nat): string
  {
    folderPath + "/" + baseName + IndexSuffix(idx) + ".md"
  }

  lemma {:induction false} MiddleCancel(p: string, x: string, y: string, q: string)
    requires p + x + q == p + y + q
    ensures x == y
  {
    assert |x| == |y|;
    assert x == (p + x + q)[|p|..|p| + |x|];
    assert y == (p + y + q)[|p|..|p| + |y|];
  }

  /** Different attempts name different paths, so the search never revisits one. */
  lemma {:induction false} CandidateInjective(folderPath: string, baseName: string, i: nat, j: nat)
    requires 1 <= i && 1 <= j
    requires Candidate(folderPath, baseName, i) == Candidate(folderPath, baseName, j)
    ensures i == j
  {
    MiddleCancel(folderPath + "/" + baseName, IndexSuffix(i), IndexSuffix(j), ".md");
    if 2 <= i && 2 <= j {
      assert NatToString(i) == IndexSuffix(i)[1..];
      assert NatToString(j) == IndexSuffix(j)[1..];
      NatToStringInjective(i, j);
    } else {
      assert |IndexSuffix(i)| == 0 <==> i < 2;
      assert |IndexSuffix(j)| == 0 <==> j < 2;
    }
  }

  /**
   * `buildUniqueInspirationFilePath`: the candidates are tried in turn while
   * the vault already holds a file at that path. The result is free, and it is
   * the first free candidate.
   */
  method BuildUniqueFilePath(folderPath: string, baseName: string, existing: set<string>) returns (path: string)
    ensures path !in existing
    ensures exists k :: 1 <= k && path == Candidate(folderPath, baseName, k)
                        && forall j :: 1 <= j < k ==> Candidate(folderPath, baseName, j) in existing
  {
    path := Candidate(folderPath, baseName, 1);
    var idx := 2;
    ghost var tried: set<string> := {};
    while path in existing
      invariant 2 <= idx && path == Candidate(folderPath, baseName, idx - 1)
      invariant forall j :: 1 <= j < idx - 1 ==> Candidate(folderPath, baseName, j) in existing
      invariant tried <= existing
      invariant forall t, k :: t in tried && idx - 1 <= k ==> t != Candidate(folderPath, baseName, k)
      decreases |existing - tried|
    {
      forall k | idx <= k
        ensures path != Candidate(folderPath, baseName, k)
      {
        if path == Candidate(folderPath, baseName, k) {
          CandidateInjective(folderPath, baseName, idx - 1, k);
        }
      }
      assert path !in tried;
      assert existing - (tried + {path}) < existing - tried;
      tried := tried + {path};
      path := Candidate(folderPath, baseName, idx);
      idx := idx + 1;
    }
  }

  /* --------------------------------------------------- inline format toggle */

  predicate EndsWith(s: string, q: string)
  {
    |q| <= |s| && s[|s| - |q|..] == q
  }

  /** The body editor's text and selection after an edit. */
  datatype Edit = Edit(value: string, selectionStart: nat, selectionEnd: nat)

  /**
   * `replaceRange`: `value[from..to]` becomes `replacement`, with the given
   * selection.
   */
  function ReplaceRange(value: string, from: nat, to: nat, replacement: string, selStart: nat, selEnd: nat): (r: Edit)
    requires from <= to <= |value|
    ensures |r.value| == |value| - (to - from) + |replacement|
    ensures r.value[..from] == value[..from] && r.value[from + |replacement|..] == value[to..]
    ensures r.value[from..from + |replacement|] == replacement
  {
    Edit(value[..from] + replacement + value[to..], selStart, selEnd)
  }

  /** Case 1 of the toggle: the selection itself begins with `prefix` and ends with `suffix`. */
  predicate WrappedInside(selected: string, prefix: string, suffix: string)
  {
    |selected| >= |prefix| + |suffix| && StartsWith(selected, prefix) && EndsWith(selected, suffix)
  }

  /** Case 2 of the toggle: `prefix` ends right at the selection and `suffix` starts right after it. */
  predicate WrappedOutside(value: string, start: nat, end: nat, prefix: string, suffix: string)
    requires start <= end <= |value|
  {
    |prefix| <= start && end + |suffix| <= |value|
    && value[start - |prefix|..start] == prefix && value[end..end + |suffix|] == suffix
  }

  /**
   * `toggleInlineWrapper` on the editor's text and selection: nothing for an
   * empty selection; a selection carrying the markers is unwrapped; markers
   * just around the selection are removed; otherwise the selection is wrapped
   * and the new selection covers the markers too.
   */
  function ToggleInlineWrapper(value: string, start: nat, end: nat, prefix: string, suffix: string): (r: Option<Edit>)
    requires end <= |value|
    ensures r.None? <==> end <= start
    ensures r.Some? ==> r.value.selectionStart <= r.value.selectionEnd <= |r.value.value|
  {
    if end <= start then None
    else
      var selected := value[start..end];
      if WrappedInside(selected, prefix, suffix) then
        var inner := selected[|prefix|..|selected| - |suffix|];
        Some(ReplaceRange(value, start, end, inner, start, start + |inner|))
      else if WrappedOutside(value, start, end, prefix, suffix) then
        var leftStart := start - |prefix|;
        Some(ReplaceRange(value, leftStart, end + |suffix|, selected, leftStart, leftStart + |selected|))
      else
        var wrapped := prefix + selected + suffix;
        Some(ReplaceRange(value, start, end, wrapped, start, start + |wrapped|))
  }

  /** Unwrapping a selection that carries the markers keeps the text outside it and selects the inside. */
  lemma {:induction false} UnwrapInside(value: string, start: nat, end: nat, prefix: string, suffix: string)
    requires start < end <= |value| && WrappedInside(value[start..end], prefix, suffix)
    ensures var r := ToggleInlineWrapper(value, start, end, prefix, suffix).value;
            && r.value == value[..start] + value[start + |prefix|..end - |suffix|] + value[end..]
            && r.selectionStart == start && r.selectionEnd == end - |prefix| - |suffix|
  {
    var selected := value[start..end];
    var inner := selected[|prefix|..|selected| - |suffix|];
    assert |inner| == end - |suffix| - (start + |prefix|);
    forall i | 0 <= i < |inner|
      ensures inner[i] == value[start + |prefix| + i]
    {
    }
    assert inner == value[start + |prefix|..end - |suffix|];
  }

  /** Markers around the selection are removed and the selection keeps its text. */
  lemma {:induction false} UnwrapOutside(value: string, start: nat, end: nat, prefix: string, suffix: string)
    requires start < end <= |value|
    requires !WrappedInside(value[start..end], prefix, suffix) && WrappedOutside(value, start, end, prefix, suffix)
    ensures var r := ToggleInlineWrapper(value, start, end, prefix, suffix).value;
            && r.value == value[..start - |prefix|] + value[start..end] + value[end + |suffix|..]
            && r.selectionStart == start - |prefix| && r.selectionEnd == end - |prefix|
  {
  }

  /**
   * Wrapping is undone by toggling again: when the selection had no markers
   * inside or around it, toggling twice restores the text and the selection.
   */
  lemma {:induction false} WrapThenToggleRestores(value: string, start: nat, end: nat, prefix: string, suffix: string)
    requires start < end <= |value|
    requires !WrappedInside(value[start..end], prefix, suffix) && !WrappedOutside(value, start, end, prefix, suffix)
    ensures var w := ToggleInlineWrapper(value, start, end, prefix, suffix).value;
            && w.value == value[..start] + prefix + value[start..end] + suffix + value[end..]
            && ToggleInlineWrapper(w.value, w.selectionStart, w.selectionEnd, prefix, suffix) == Some(Edit(value, start, end))
  {
    var selected := value[start..end];
    var wrapped := prefix + selected + suffix;
    var v := value[..start] + wrapped + value[end..];
    assert ToggleInlineWrapper(value, start, end, prefix, suffix) == Some(Edit(v, start, start + |wrapped|));
    assert v == value[..start] + prefix + value[start..end] + suffix + value[end..];
    WrappedSlices(value, start, end, prefix, suffix);
    assert WrappedInside(v[start..start + |wrapped|], prefix, suffix) by {
      assert wrapped[..|prefix|] == prefix;
      assert wrapped[|wrapped| - |suffix|..] == suffix;
    }
    UnwrapInside(v, start, start + |wrapped|, prefix, suffix);
    assert value == value[..start] + value[start..end] + value[end..];
  }

  /** The pieces of the wrapped text: the text before, the markers around the old selection, the text after. */
  lemma {:induction false} WrappedSlices(value: string, start: nat, end: nat, prefix: string, suffix: string)
    requires start <= end <= |value|
    ensures var wrapped := prefix + value[start..end] + suffix;
            var v := value[..start] + wrapped + value[end..];
            && v[..start] == value[..start]
            && v[start..start + |wrapped|] == wrapped
            && v[start + |prefix|..start + |wrapped| - |suffix|] == value[start..end]
            && v[start + |wrapped|..] == value[end..]
  {
    var wrapped := prefix + value[start..end] + suffix;
    var v := value[..start] + wrapped + value[end..];
    assert v[start..start + |wrapped|] == wrapped;
    assert wrapped[|prefix|..|wrapped| - |suffix|] == value[start..end];
    assert v[start + |prefix|..start + |wrapped| - |suffix|] == wrapped[|prefix|..|wrapped| - |suffix|];
  }

  /* ------------------------------------------------------------ preview lines */

  /** `getCollapsedLines`: the preview-lines setting, 3 when not finite, kept within 1..10. */
  function CollapsedLines(raw: Number): (r: int)
    ensures 1 <= r <= 10
    ensures raw.NonFinite? ==> r == 3
    ensures raw.Finite? && 1 <= raw.value <= 10 ==> r == raw.value
    ensures raw.Finite? && raw.value < 1 ==> r == 1
    ensures raw.Finite? && 10 < raw.value ==> r == 10
  {
    var normalized := if raw.Finite? then raw.value else 3;
    Min(10, Max(1, normalized))
  }

  function Min(a: int, b: int): int { if a <= b then a else b }

  function Max(a: int, b: int): int { if a >= b then a else b }
}
