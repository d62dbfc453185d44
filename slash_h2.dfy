/**
 * The heading completion (`SlashH2CompleteManager`): typing `//` and a run of
 * characters other than white space and `/` offers the level-2 heading texts
 * of the current tree that contain it, and accepting one replaces the
 * `//query` with that text.
 */
module SlashH2 {
  import opened Wrappers
  import opened Editor
  import opened Text
  import Sorting
  import Seqs
  import opened SlashPopup
  import opened CandidateRank
  import opened TrimmedSet

  /** `(item) => item.toLowerCase().includes(q)`. */
  function ValueContains(q: string): string -> bool
  {
    (item: string) => Contains(ToLower(item), q)
  }

  /** The sort of `filterCandidates` on distinct values: by `le` for an empty query, else the matches ranked. */
  function RankCandidates(unique: seq<string>, q: string, le: (string, string) -> bool): (r: seq<string>)
    requires Sorting.TotalPreorder(le) && Seqs.NoDups(unique)
    ensures Seqs.NoDups(r)
    ensures forall x :: x in r <==> x in unique && (q == [] || Contains(ToLower(x), q))
    ensures q == [] ==> Sorting.Sorted(r, le)
    ensures q != [] ==> Sorting.Sorted(r, Ranked(q, ToLower, le))
  {
    if q == [] then
      SortDistinct(unique, le);
      Sorting.Sort(unique, le)
    else
      RankedPreorder(q, ToLower, le);
      SortMatches(unique, ValueContains(q), Ranked(q, ToLower, le));
      Sorting.Sort(Seqs.Filter(unique, ValueContains(q)), Ranked(q, ToLower, le))
  }

  /**
   * `filterCandidates`: the unique values, all of them ordered by the locale
   * comparison `le` for an empty query, otherwise only those whose lowered
   * text contains the query, ranked by `Ranked` with `le` breaking ties.
   */
  function FilterCandidates(values: seq<string>, query: string, le: (string, string) -> bool): (r: seq<string>)
    requires Sorting.TotalPreorder(le)
    ensures Seqs.NoDups(r)
    ensures forall x :: x in r <==> && x != [] && x in TrimAll(values)
                                    && (NormalizeQuery(query) == [] || Contains(ToLower(x), NormalizeQuery(query)))
    ensures NormalizeQuery(query) == [] ==> Sorting.Sorted(r, le)
    ensures NormalizeQuery(query) != [] ==> Sorting.Sorted(r, Ranked(NormalizeQuery(query), ToLower, le))
  {
    RankCandidates(Unique(values), NormalizeQuery(query), le)
  }

  /** Every listed value is trimmed and not empty. */
  lemma {:induction false} FilterCandidatesTrimmed(values: seq<string>, query: string, le: (string, string) -> bool)
    requires Sorting.TotalPreorder(le)
    ensures var r := FilterCandidates(values, query, le);
            forall i :: 0 <= i < |r| ==> r[i] != [] && Trim(r[i]) == r[i]
  {
    UniqueTrimmed(values);
  }

  /** Values starting with the query come before the others. */
  lemma {:induction false} FilterCandidatesPrefixFirst(values: seq<string>, query: string, le: (string, string) -> bool)
    requires Sorting.TotalPreorder(le) && NormalizeQuery(query) != []
    ensures var r := FilterCandidates(values, query, le);
            var q := NormalizeQuery(query);
            forall i, j :: 0 <= i < j < |r| && StartsWith(ToLower(r[j]), q) ==> StartsWith(ToLower(r[i]), q)
  {
    PrefixMatchesFirst(FilterCandidates(values, query, le), NormalizeQuery(query), ToLower, le);
  }

  /** The character class of the query: `[^\s/]`. */
  predicate QueryChar(c: char)
  {
    !IsSpace(c) && c != '/'
  }

  /** `detectSlashQuery`: `//` and a possibly empty run of query characters ending at the cursor, with nothing selected. */
  function DetectSlashQuery(selectionEmpty: bool, cursor: nat, lineFrom: nat, lineText: string): (r: Option<SlashMatch>)
    requires lineFrom <= cursor <= lineFrom + |lineText|
    ensures r.Some? ==> && selectionEmpty && r.value.to == cursor
                        && lineFrom <= r.value.from && r.value.from + 2 + |r.value.query| == cursor
                        && lineText[r.value.from - lineFrom..cursor - lineFrom] == "//" + r.value.query
                        && forall i :: 0 <= i < |r.value.query| ==> QueryChar(r.value.query[i])
  {
    SlashPopup.DetectSlashQuery(selectionEmpty, cursor, lineFrom, lineText, QueryChar, true)
  }

  /** Every `//` followed by query characters at the cursor is found, starting at that `//`; a bare `//` too. */
  lemma {:induction false} DetectSlashQueryFinds(cursor: nat, lineFrom: nat, lineText: string, x: string, q: string)
    requires lineFrom <= cursor <= lineFrom + |lineText|
    requires lineText[..cursor - lineFrom] == x + "//" + q
    requires forall i :: 0 <= i < |q| ==> QueryChar(q[i])
    ensures DetectSlashQuery(true, cursor, lineFrom, lineText) == Some(SlashMatch(lineFrom + |x|, cursor, q))
  {
    SlashPopup.DetectSlashQueryComplete(cursor, lineFrom, lineText, x, q, QueryChar, true);
  }

  /**
   * `refresh`: with the setting on and the editor focused, the popup opens on
   * the headings of the tree the query at the cursor matches; otherwise, or
   * when there is no query or no match, it closes.
   */
  method Refresh(popup: Popup<string>, enabled: bool, hasFocus: bool, values: seq<string>, le: (string, string) -> bool,
                 selectionEmpty: bool, cursor: nat, lineFrom: nat, lineText: string)
    requires popup.Valid() && Sorting.TotalPreorder(le) && lineFrom <= cursor <= lineFrom + |lineText|
    modifies popup
    ensures popup.Valid()
    ensures var found := DetectSlashQuery(selectionEmpty, cursor, lineFrom, lineText);
            if enabled && hasFocus && found.Some? && FilterCandidates(values, found.value.query, le) != [] then
              && popup.open && popup.candidates == FilterCandidates(values, found.value.query, le)
              && popup.lastQuery == found.value.query
              && popup.replaceFrom == found.value.from && popup.replaceTo == found.value.to
            else !popup.open && popup.lastQuery == ""
  {
    var found := if enabled && hasFocus then DetectSlashQuery(selectionEmpty, cursor, lineFrom, lineText) else None;
    var filtered := if found.Some? then FilterCandidates(values, found.value.query, le) else [];
    popup.Refresh(enabled, hasFocus, found, filtered);
  }

  /**
   * `accept`: with the popup open on a non-empty value, the value replaces
   * the `//query`, the cursor goes right after it and the popup hides.
   */
  method Accept(popup: Popup<string>) returns (change: Option<Change>)
    requires popup.Valid()
    modifies popup
    ensures popup.Valid()
    ensures !old(popup.open) || old(popup.candidates[popup.activeIndex]) == [] ==> change.None? && unchanged(popup)
    ensures old(popup.open) && old(popup.candidates[popup.activeIndex]) != [] ==>
              var value := old(popup.candidates[popup.activeIndex]);
              && change == Some(Change(old(popup.replaceFrom), old(popup.replaceTo), value, old(popup.replaceFrom) + |value|))
              && !popup.open && popup.lastQuery == ""
              && popup.candidates == old(popup.candidates) && popup.activeIndex == old(popup.activeIndex)
              && popup.replaceFrom == old(popup.replaceFrom) && popup.replaceTo == old(popup.replaceTo)
  {
    if !popup.open || |popup.candidates| == 0 {
      return None;
    }
    var value := popup.candidates[popup.activeIndex];
    if value == [] {
      return None;
    }
    change := Some(Change(popup.replaceFrom, popup.replaceTo, value, popup.replaceFrom + |value|));
    popup.Hide();
  }

  /** `handleKey`: a closed popup leaves the key to the editor; an open one takes it, and Enter accepts. */
  method HandleKey(popup: Popup<string>, key: Key, pageSize: nat) returns (handled: bool, change: Option<Change>)
    requires popup.Valid() && pageSize >= 1
    modifies popup
    ensures popup.Valid()
    ensures handled == old(popup.open)
    ensures !handled ==> change.None? && unchanged(popup)
    ensures handled && key.Arrow? ==>
              && popup.open && popup.candidates == old(popup.candidates) && change.None?
              && popup.activeIndex == ArrowIndex(key, old(popup.activeIndex), old(|popup.candidates|), pageSize)
    ensures handled && key.Escape? ==> !popup.open && change.None?
    ensures handled && key.Enter? ==>
              var value := old(popup.candidates[popup.activeIndex]);
              change == if value == [] then None
                        else Some(Change(old(popup.replaceFrom), old(popup.replaceTo), value, old(popup.replaceFrom) + |value|))
  {
    if !popup.open {
      return false, None;
    }
    handled := true;
    if key.Enter? {
      change := Accept(popup);
    } else {
      popup.Navigate(key, pageSize);
      change := None;
    }
  }
}
