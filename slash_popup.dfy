/**
 * The candidate popup shared by the two slash completions: the page size
 * setting, the page arithmetic behind the arrow keys, and the popup's state
 * (its candidates, the active one, the range it replaces, whether it is open
 * and the query it was opened for).
 */
module SlashPopup {
  import opened Wrappers
  import opened Editor
  import opened Json

  /** `getPageSize`: the page-size setting, 8 when it is not a finite number, never below 1. */
  function PageSize(configured: Number): (r: nat)
    ensures r >= 1
    ensures configured.NonFinite? ==> r == 8
    ensures configured.Finite? && configured.value >= 1 ==> r == configured.value
    ensures configured.Finite? && configured.value < 1 ==> r == 1
  {
    if configured.NonFinite? then 8 else Max(1, configured.value)
  }

  function Max(a: int, b: int): int { if a >= b then a else b }

  function Min(a: int, b: int): int { if a <= b then a else b }

  /** `Math.max(1, Math.ceil(n / size))`. */
  function PageCount(n: nat, size: nat): (r: nat)
    requires size >= 1
  {
    Max(1, (n + size - 1) / size)
  }

  /** The first index of the page holding `index`. */
  function PageStart(index: nat, size: nat): nat
    requires size >= 1
  {
    index / size * size
  }

  /**
   * `move`: the active index moves by `delta` but stays on its page and in
   * the list.
   */
  function MoveIndex(active: nat, delta: int, n: nat, size: nat): (r: nat)
    requires size >= 1 && active < n
    ensures PageStart(active, size) <= r < PageStart(active, size) + size && r < n
    ensures r / size == active / size
    ensures PageStart(active, size) <= active + delta < PageStart(active, size) + size && active + delta < n
            ==> r == active + delta
  {
    var pageStart := PageStart(active, size);
    var pageEnd := Min(n - 1, pageStart + size - 1);
    PageBounds(active, size);
    var r := Min(pageEnd, Max(pageStart, active + delta));
    SamePage(r, active / size, size);
    r
  }

  /**
   * `flipPage`: the active index jumps to the first entry of the page
   * `delta` pages away, clamped to the pages there are.
   */
  function FlipIndex(active: nat, delta: int, n: nat, size: nat): (r: nat)
    requires size >= 1 && active < n
    ensures r % size == 0 && r / size < PageCount(n, size) && r < n
    ensures delta == 0 ==> r == PageStart(active, size)
  {
    var pageCount := PageCount(n, size);
    var currentPage := active / size;
    var targetPage := Max(0, Min(pageCount - 1, currentPage + delta));
    LastPageStart(n, size, targetPage);
    if delta == 0 then
      PageOfIndex(active, n, size);
      targetPage * size
    else
      targetPage * size
  }

  /** The page holding an index of the list is one of its pages. */
  lemma {:induction false} PageOfIndex(active: nat, n: nat, size: nat)
    requires size >= 1 && active < n
    ensures active / size < PageCount(n, size)
  {
    var q := active / size;
    var c := (n + size - 1) / size;
    assert active == q * size + active % size;
    assert n + size - 1 == c * size + (n + size - 1) % size;
    if q >= c {
      MulMonotone(c, q, size);
      assert false;
    }
  }

  /** The page start is at most the index, and the index is less than a page past it. */
  lemma {:induction false} PageBounds(index: nat, size: nat)
    requires size >= 1
    ensures PageStart(index, size) <= index < PageStart(index, size) + size
  {
  }

  /** Every index from a page's start to its last entry lies on that page. */
  lemma {:induction false} SamePage(x: int, q: nat, size: nat)
    requires size >= 1 && q * size <= x < q * size + size
    ensures x / size == q
  {
    var d := x / size;
    var r := x % size;
    assert x == d * size + r && 0 <= r < size;
    if d < q {
      MulMonotone(d + 1, q, size);
    } else if d > q {
      MulMonotone(q + 1, d, size);
    }
  }

  lemma {:induction false} MulMonotone(a: int, b: int, s: nat)
    requires a <= b
    ensures a * s <= b * s
    decreases b - a
  {
    if a < b {
      MulMonotone(a, b - 1, s);
      assert b * s == (b - 1) * s + s;
    }
  }

  /** The start of any page up to the last lies inside the list, and divides back to its page. */
  lemma {:induction false} LastPageStart(n: nat, size: nat, page: nat)
    requires size >= 1 && n >= 1 && page < PageCount(n, size)
    ensures page * size < n && (page * size) % size == 0 && page * size / size == page
  {
    var c := (n + size - 1) / size;
    var r := (n + size - 1) % size;
    assert n + size - 1 == c * size + r && 0 <= r < size;
    assert c >= 1 by {
      if c <= 0 {
        MulMonotone(c, 0, size);
      }
    }
    assert page <= c - 1;
    MulMonotone(page, c - 1, size);
    assert (c - 1) * size == c * size - size;
    SamePage(page * size, page, size);
    ModOfMultiple(page, size);
  }

  lemma {:induction false} ModOfMultiple(q: nat, size: nat)
    requires size >= 1
    ensures (q * size) % size == 0
  {
    SamePage(q * size, q, size);
  }

  /** A query match: the range of the editor text it replaces and the query text. */
  datatype SlashMatch = SlashMatch(from: nat, to: nat, query: string)

  /** How many characters of the class `s` ends with. */
  function TrailingRun(s: string, inClass: char -> bool): (n: nat)
    ensures n <= |s|
    ensures forall i :: |s| - n <= i < |s| ==> inClass(s[i])
    ensures n == |s| || !inClass(s[|s| - n - 1])
  {
    if |s| > 0 && inClass(s[|s| - 1]) then 1 + TrailingRun(s[..|s| - 1], inClass) else 0
  }

  /**
   * The regular expression `\/\/(C*)$` (or `C+` when `allowEmpty` is false)
   * run on `before`, for a character class C without `/`: the index of the
   * `//` of the leftmost match. Since `/` is not in C, the query can only be
   * the run of C that `before` ends with.
   */
  function FindSlashQuery(before: string, inClass: char -> bool, allowEmpty: bool): (r: Option<nat>)
    requires !inClass('/')
    ensures r.Some? ==> && r.value + 2 <= |before| && before[r.value..r.value + 2] == "//"
                        && (forall i :: r.value + 2 <= i < |before| ==> inClass(before[i]))
                        && (allowEmpty || r.value + 2 < |before|)
  {
    var k := TrailingRun(before, inClass);
    if (k == 0 && !allowEmpty) || k + 2 > |before| then None
    else if before[|before| - k - 2..|before| - k] == "//" then Some(|before| - k - 2)
    else None
  }

  /** Every text ending in `//` and a query of the class is found, with the `//` where it was put. */
  lemma {:induction false} FindSlashQueryComplete(x: string, q: string, inClass: char -> bool, allowEmpty: bool)
    requires !inClass('/')
    requires forall i :: 0 <= i < |q| ==> inClass(q[i])
    requires allowEmpty || q != []
    ensures FindSlashQuery(x + "//" + q, inClass, allowEmpty) == Some(|x|)
  {
    var s := x + "//" + q;
    var k := TrailingRun(s, inClass);
    assert !inClass(s[|s| - |q| - 1]);
    assert forall i :: |x| + 2 <= i < |s| ==> inClass(s[i]) by {
      forall i | |x| + 2 <= i < |s| ensures inClass(s[i]) {
        assert s[i] == q[i - |x| - 2];
      }
    }
    assert s[|x|..|x| + 2] == "//";
  }

  /**
   * `detectSlashQuery` for a class C: nothing while text is selected;
   * otherwise the match in the cursor's line up to the cursor, from its `//`
   * to the cursor, with the run after `//` as the query.
   */
  function DetectSlashQuery(selectionEmpty: bool, cursor: nat, lineFrom: nat, lineText: string,
                            inClass: char -> bool, allowEmpty: bool): (r: Option<SlashMatch>)
    requires lineFrom <= cursor <= lineFrom + |lineText|
    requires !inClass('/')
    ensures r.Some? ==> && selectionEmpty && r.value.to == cursor && lineFrom <= r.value.from && r.value.from + 2 <= cursor
                        && lineText[r.value.from - lineFrom..cursor - lineFrom] == "//" + r.value.query
                        && (forall i :: 0 <= i < |r.value.query| ==> inClass(r.value.query[i]))
                        && (allowEmpty || r.value.query != [])
  {
    if !selectionEmpty then None
    else
      var before := lineText[..cursor - lineFrom];
      match FindSlashQuery(before, inClass, allowEmpty)
      case None => None
      case Some(j) =>
        assert before[j..] == before[j..j + 2] + before[j + 2..];
        Some(SlashMatch(lineFrom + j, cursor, before[j + 2..]))
  }

  /** With an empty selection, a line that reads `x//q` up to the cursor yields the query `q` at `x`'s end. */
  lemma {:induction false} DetectSlashQueryComplete(cursor: nat, lineFrom: nat, lineText: string, x: string, q: string,
                                 inClass: char -> bool, allowEmpty: bool)
    requires lineFrom <= cursor <= lineFrom + |lineText|
    requires !inClass('/')
    requires lineText[..cursor - lineFrom] == x + "//" + q
    requires forall i :: 0 <= i < |q| ==> inClass(q[i])
    requires allowEmpty || q != []
    ensures DetectSlashQuery(true, cursor, lineFrom, lineText, inClass, allowEmpty)
            == Some(SlashMatch(lineFrom + |x|, cursor, q))
  {
    FindSlashQueryComplete(x, q, inClass, allowEmpty);
    assert (x + "//" + q)[|x| + 2..] == q;
  }

  /** The popup's state, one per editor. */
  class Popup<T> {
    var candidates: seq<T>
    var activeIndex: nat
    var replaceFrom: nat
    var replaceTo: nat
    var open: bool
    var lastQuery: string

    /** The active index points into the candidates whenever there are any, and an open popup has some. */
    predicate Valid()
      reads this
    {
      (candidates != [] ==> activeIndex < |candidates|) && (open ==> candidates != [])
    }

    constructor ()
      ensures Valid() && !open && candidates == [] && activeIndex == 0 && lastQuery == ""
    {
      candidates := [];
      activeIndex := 0;
      replaceFrom := 0;
      replaceTo := 0;
      open := false;
      lastQuery := "";
    }

    /** `hide`: the popup closes and forgets its query. */
    method Hide()
      requires Valid()
      modifies this
      ensures Valid() && !open && lastQuery == ""
      ensures candidates == old(candidates) && activeIndex == old(activeIndex)
      ensures replaceFrom == old(replaceFrom) && replaceTo == old(replaceTo)
    {
      open := false;
      lastQuery := "";
    }

    /**
     * `refresh` once the query has been detected and the candidates filtered:
     * the popup closes when the setting is off, the editor has no focus, no
     * query is found or nothing matches. Otherwise it opens on the candidates;
     * a new query starts at the first candidate, the same query keeps the
     * active one, moved to the last if the list got shorter.
     */
    method Refresh(enabled: bool, hasFocus: bool, found: Option<SlashMatch>, filtered: seq<T>)
      requires Valid()
      modifies this
      ensures Valid()
      ensures !enabled || !hasFocus || found.None? || filtered == [] ==>
                && !open && lastQuery == ""
                && candidates == old(candidates) && activeIndex == old(activeIndex)
                && replaceFrom == old(replaceFrom) && replaceTo == old(replaceTo)
      ensures enabled && hasFocus && found.Some? && filtered != [] ==>
                && open && candidates == filtered && lastQuery == found.value.query
                && replaceFrom == found.value.from && replaceTo == found.value.to
                && activeIndex == (if found.value.query != old(lastQuery) then 0
                                   else if old(activeIndex) >= |filtered| then |filtered| - 1
                                   else old(activeIndex))
    {
      if !enabled || !hasFocus || found.None? || filtered == [] {
        Hide();
        return;
      }
      var m := found.value;
      replaceFrom := m.from;
      replaceTo := m.to;
      candidates := filtered;
      if m.query != lastQuery {
        activeIndex := 0;
        lastQuery := m.query;
      } else if activeIndex >= |candidates| {
        activeIndex := |candidates| - 1;
      }
      open := true;
    }

    /** `move`: nothing while closed; otherwise the active index moves within its page. */
    method Move(delta: int, pageSize: nat)
      requires Valid() && pageSize >= 1
      modifies this
      ensures Valid()
      ensures old(open) && old(activeIndex) < |candidates| ==> activeIndex == MoveIndex(old(activeIndex), delta, |candidates|, pageSize)
      ensures !old(open) ==> activeIndex == old(activeIndex)
      ensures candidates == old(candidates) && open == old(open) && lastQuery == old(lastQuery)
      ensures replaceFrom == old(replaceFrom) && replaceTo == old(replaceTo)
    {
      if !open || |candidates| == 0 {
        return;
      }
      activeIndex := MoveIndex(activeIndex, delta, |candidates|, pageSize);
    }

    /** `flipPage`: nothing while closed; otherwise the active index goes to the start of another page. */
    method FlipPage(delta: int, pageSize: nat)
      requires Valid() && pageSize >= 1
      modifies this
      ensures Valid()
      ensures old(open) && old(activeIndex) < |candidates| ==> activeIndex == FlipIndex(old(activeIndex), delta, |candidates|, pageSize)
      ensures !old(open) ==> activeIndex == old(activeIndex)
      ensures candidates == old(candidates) && open == old(open) && lastQuery == old(lastQuery)
      ensures replaceFrom == old(replaceFrom) && replaceTo == old(replaceTo)
    {
      if !open || |candidates| == 0 {
        return;
      }
      activeIndex := FlipIndex(activeIndex, delta, |candidates|, pageSize);
    }

    /** An open popup's keys other than Enter: the arrows move or flip pages, Escape hides it. */
    method Navigate(key: Key, pageSize: nat)
      requires Valid() && pageSize >= 1 && open && !key.Enter?
      modifies this
      ensures Valid()
      ensures candidates == old(candidates) && replaceFrom == old(replaceFrom) && replaceTo == old(replaceTo)
      ensures key.Arrow? ==> && open && lastQuery == old(lastQuery)
                             && activeIndex == ArrowIndex(key, old(activeIndex), |candidates|, pageSize)
      ensures key.Escape? ==> !open && lastQuery == "" && activeIndex == old(activeIndex)
    {
      match key
      case Arrow(Down) => Move(1, pageSize);
      case Arrow(Up) => Move(-1, pageSize);
      case Arrow(PageNext) => FlipPage(1, pageSize);
      case Arrow(PagePrev) => FlipPage(-1, pageSize);
      case Escape => Hide();
    }

    /**
     * The popup's mouse handler: a click on the row of candidate `index`
     * makes it the active one and is then accepted; a click elsewhere does
     * nothing.
     */
    method Click(index: int) returns (accepted: bool)
      requires Valid()
      modifies this
      ensures Valid()
      ensures accepted <==> 0 <= index < |candidates|
      ensures accepted ==> activeIndex == index
      ensures !accepted ==> activeIndex == old(activeIndex)
      ensures candidates == old(candidates) && open == old(open) && lastQuery == old(lastQuery)
      ensures replaceFrom == old(replaceFrom) && replaceTo == old(replaceTo)
    {
      if index < 0 || index >= |candidates| {
        return false;
      }
      activeIndex := index;
      return true;
    }
  }

  /** The keys the popup takes while open (`handleKey`'s actions). */
  datatype Key = Arrow(arrow: ArrowKey) | Enter | Escape
  datatype ArrowKey = Down | Up | PageNext | PagePrev

  /** Where an arrow key moves the active index: up and down within the page, right and left a page. */
  function ArrowIndex(key: Key, active: nat, n: nat, pageSize: nat): (r: nat)
    requires key.Arrow? && pageSize >= 1 && active < n
    ensures r < n
  {
    match key.arrow
    case Down => MoveIndex(active, 1, n, pageSize)
    case Up => MoveIndex(active, -1, n, pageSize)
    case PageNext => FlipIndex(active, 1, n, pageSize)
    case PagePrev => FlipIndex(active, -1, n, pageSize)
  }

  /** Moving never leaves the list or the page, and flipping lands on the first entry of a page. */
  lemma {:induction false} MoveAndFlipBounds(active: nat, delta: int, n: nat, size: nat)
    requires size >= 1 && active < n
    ensures var m := MoveIndex(active, delta, n, size);
            PageStart(m, size) == PageStart(active, size) && m < n
    ensures var f := FlipIndex(active, delta, n, size);
            PageStart(f, size) == f && f < n
  {
    var f := FlipIndex(active, delta, n, size);
    var q := f / size;
    assert f == q * size + f % size;
  }
}
