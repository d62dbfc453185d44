/**
 * The snippet completion (`SlashSnippetCompleteManager`): typing `//` and a
 * run of ASCII letters offers the snippets whose key contains those letters,
 * and accepting one replaces the `//query` with the snippet's text, the cursor
 * put where its `{$cursor}` marker was.
 */
module SlashSnippet {
  import opened Wrappers
  import opened Editor
  import opened Text
  import Sorting
  import Seqs
  import opened SnippetParse
  import opened SlashPopup
  import opened CandidateRank

  /** The text a snippet is matched by: its lowered key. */
  function LowerKey(item: SnippetItem): string
  {
    ToLower(item.key)
  }

  /** `(a, b) => a.order - b.order`. */
  function ByOrder(): (SnippetItem, SnippetItem) -> bool
  {
    (a: SnippetItem, b: SnippetItem) => a.order <= b.order
  }

  lemma {:induction false} ByOrderPreorder()
    ensures Sorting.TotalPreorder(ByOrder())
  {
  }

  /** `item.key.toLowerCase().includes(q)`. */
  function KeyContains(q: string): SnippetItem -> bool
  {
    (item: SnippetItem) => Contains(ToLower(item.key), q)
  }

  /**
   * `filterCandidates`: an empty query lists every snippet by `order`;
   * otherwise exactly the snippets whose lowered key contains the query,
   * ranked by `Ranked`.
   */
  function FilterCandidates(snippets: seq<SnippetItem>, query: string): (r: seq<SnippetItem>)
    ensures var q := NormalizeQuery(query);
            q == [] ==> multiset(r) == multiset(snippets) && Sorting.Sorted(r, ByOrder())
    ensures var q := NormalizeQuery(query);
            q != [] ==> Sorting.Sorted(r, Ranked(q, LowerKey, ByOrder()))
  {
    var q := NormalizeQuery(query);
    if q == [] then
      ByOrderPreorder();
      Sorting.SortSorted(snippets, ByOrder());
      Sorting.Sort(snippets, ByOrder())
    else
      ByOrderPreorder();
      RankedPreorder(q, LowerKey, ByOrder());
      Sorting.SortSorted(Seqs.Filter(snippets, KeyContains(q)), Ranked(q, LowerKey, ByOrder()));
      Sorting.Sort(Seqs.Filter(snippets, KeyContains(q)), Ranked(q, LowerKey, ByOrder()))
  }

  /** A non-empty query keeps each snippet whose lowered key contains it, as often as it occurs, and nothing else. */
  lemma {:induction false} FilterCandidatesMembers(snippets: seq<SnippetItem>, query: string, x: SnippetItem)
    requires NormalizeQuery(query) != []
    ensures multiset(FilterCandidates(snippets, query))[x]
            == if Contains(ToLower(x.key), NormalizeQuery(query)) then multiset(snippets)[x] else 0
  {
    var q := NormalizeQuery(query);
    Seqs.FilterCount(snippets, KeyContains(q), x);
  }

  /** Snippets whose key starts with the query come before the others. */
  lemma {:induction false} FilterCandidatesPrefixFirst(snippets: seq<SnippetItem>, query: string)
    requires NormalizeQuery(query) != []
    ensures var r := FilterCandidates(snippets, query);
            var q := NormalizeQuery(query);
            forall i, j :: 0 <= i < j < |r| && StartsWith(ToLower(r[j].key), q) ==> StartsWith(ToLower(r[i].key), q)
  {
    var r := FilterCandidates(snippets, query);
    PrefixMatchesFirst(r, NormalizeQuery(query), LowerKey, ByOrder());
  }

  /** `detectSlashQuery`: `//` and a non-empty run of ASCII letters ending at the cursor, with nothing selected. */
  function DetectSlashQuery(selectionEmpty: bool, cursor: nat, lineFrom: nat, lineText: string): (r: Option<SlashMatch>)
    requires lineFrom <= cursor <= lineFrom + |lineText|
    ensures r.Some? ==> && selectionEmpty && r.value.to == cursor
                        && lineFrom <= r.value.from && r.value.from + 2 + |r.value.query| == cursor
                        && lineText[r.value.from - lineFrom..cursor - lineFrom] == "//" + r.value.query
                        && r.value.query != []
                        && forall i :: 0 <= i < |r.value.query| ==> IsAsciiLetter(r.value.query[i])
  {
    SlashPopup.DetectSlashQuery(selectionEmpty, cursor, lineFrom, lineText, IsAsciiLetter, false)
  }

  /** Every `//` followed by letters at the cursor is found, starting at that `//`. */
  lemma {:induction false} DetectSlashQueryFinds(cursor: nat, lineFrom: nat, lineText: string, x: string, q: string)
    requires lineFrom <= cursor <= lineFrom + |lineText|
    requires lineText[..cursor - lineFrom] == x + "//" + q
    requires q != [] && forall i :: 0 <= i < |q| ==> IsAsciiLetter(q[i])
    ensures DetectSlashQuery(true, cursor, lineFrom, lineText) == Some(SlashMatch(lineFrom + |x|, cursor, q))
  {
    SlashPopup.DetectSlashQueryComplete(cursor, lineFrom, lineText, x, q, IsAsciiLetter, false);
  }

  /**
   * `refresh`: with the setting on and the editor focused, the popup opens on
   * the snippets the query at the cursor matches; otherwise, or when there is
   * no query or no match, it closes.
   */
  method Refresh(popup: Popup<SnippetItem>, enabled: bool, hasFocus: bool, snippets: seq<SnippetItem>,
                 selectionEmpty: bool, cursor: nat, lineFrom: nat, lineText: string)
    requires popup.Valid() && lineFrom <= cursor <= lineFrom + |lineText|
    modifies popup
    ensures popup.Valid()
    ensures var found := DetectSlashQuery(selectionEmpty, cursor, lineFrom, lineText);
            if enabled && hasFocus && found.Some? && FilterCandidates(snippets, found.value.query) != [] then
              && popup.open && popup.candidates == FilterCandidates(snippets, found.value.query)
              && popup.lastQuery == found.value.query
              && popup.replaceFrom == found.value.from && popup.replaceTo == found.value.to
            else !popup.open && popup.lastQuery == ""
  {
    var found := if enabled && hasFocus then DetectSlashQuery(selectionEmpty, cursor, lineFrom, lineText) else None;
    var filtered := if found.Some? then FilterCandidates(snippets, found.value.query) else [];
    popup.Refresh(enabled, hasFocus, found, filtered);
  }

  /** The edit accepting `item` makes: its text replaces `from..to`, and the cursor goes where its marker was. */
  function AcceptChange(item: SnippetItem, from: nat, to: nat): (c: Change)
    ensures c.from == from && c.to == to
    ensures c.insert == RemoveAll(item.content, CursorMarker)
    ensures from <= c.cursor <= from + |c.insert|
    ensures !Contains(item.content, CursorMarker) ==> c.insert == item.content && c.cursor == from + |item.content|
  {
    var ins := ResolveSnippetInsert(item.content);
    Change(from, to, ins.text, from + ins.cursorOffset)
  }

  /**
   * A snippet holding one marker, with none formed once it is cut, inserts
   * its text without the marker and puts the cursor where the marker was;
   * the source's two-step resolution makes the same edit.
   */
  lemma {:induction false} AcceptChangeSingleMarker(item: SnippetItem, from: nat, to: nat, a: string, b: string)
    requires item.content == a + CursorMarker + b && !Contains(a + b, CursorMarker)
    ensures AcceptChange(item, from, to) == Change(from, to, a + b, from + |a|)
    ensures var w := ResolveAsWritten(item.content);
            AcceptChange(item, from, to) == Change(from, to, w.text, from + w.cursorOffset)
  {
    ResolveSingleMarker(a, b);
  }

  /** `accept`: with the popup open, the active snippet is inserted and the popup hides. */
  method Accept(popup: Popup<SnippetItem>) returns (change: Option<Change>)
    requires popup.Valid()
    modifies popup
    ensures popup.Valid()
    ensures !old(popup.open) ==> change.None? && unchanged(popup)
    ensures old(popup.open) ==>
              && change == Some(AcceptChange(old(popup.candidates[popup.activeIndex]), old(popup.replaceFrom), old(popup.replaceTo)))
              && !popup.open && popup.lastQuery == ""
              && popup.candidates == old(popup.candidates) && popup.activeIndex == old(popup.activeIndex)
              && popup.replaceFrom == old(popup.replaceFrom) && popup.replaceTo == old(popup.replaceTo)
  {
    if !popup.open || |popup.candidates| == 0 {
      return None;
    }
    var selected := popup.candidates[popup.activeIndex];
    var resolved := ResolveSnippetInsert(selected.content);
    change := Some(Change(popup.replaceFrom, popup.replaceTo, resolved.text, popup.replaceFrom + resolved.cursorOffset));
    popup.Hide();
  }

  /**
   * `handleKey`: a closed popup leaves the key to the editor; an open one
   * takes it, and Enter accepts the active snippet.
   */
  method HandleKey(popup: Popup<SnippetItem>, key: Key, pageSize: nat) returns (handled: bool, change: Option<Change>)
    requires popup.Valid() && pageSize >= 1
    modifies popup
    ensures popup.Valid()
    ensures handled == old(popup.open)
    ensures !handled ==> change.None? && unchanged(popup)
    ensures handled && key.Arrow? ==>
              && popup.open && popup.candidates == old(popup.candidates) && change.None?
              && popup.activeIndex == ArrowIndex(key, old(popup.activeIndex), old(|popup.candidates|), pageSize)
    ensures handled && key.Escape? ==> !popup.open && change.None?
    ensures handled && key.Enter? ==>
              && !popup.open
              && change == Some(AcceptChange(old(popup.candidates[popup.activeIndex]), old(popup.replaceFrom), old(popup.replaceTo)))
  {
    if !popup.open {
      return false, None;
    }
    handled := true;
    if key.Enter? {
      change := Accept(popup);
    } else {
      popup.Navigate(key, pageSize);
      change := None;
    }
  }
}
