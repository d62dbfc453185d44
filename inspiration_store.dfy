/**
 * The inspiration view's list of card models (`cardModels`) and the pure
 * operations over it: patching one card's fields in place, the pin
 * exclusivity check, the search filter and the pinned-first sort.
 */
module InspirationStore {
  import opened Wrappers
  import opened Text
  import opened CardCodec
  import opened CardMetadata
  import Sorting
  import Seqs

  /** The file a card lives in: its vault path and its creation and modification times. */
  datatype CardFileRef = CardFileRef(path: string, ctime: int, mtime: int)

  /** `CardRenderModel`: a card file and what it reads as. */
  datatype CardModel = CardModel(file: CardFileRef, content: CardContent)

  /**
   * `Partial<CardRenderModel>` as the view builds it: each field is either
   * left out (`None`) or carries its new value.
   */
  datatype Patch = Patch(
    frontmatterBody: Option<Option<string>>,
    cwDataBody: Option<Option<string>>,
    body: Option<string>,
    tagsLine: Option<string>,
    images: Option<seq<string>>,
    color: Option<Option<string>>,
    isPinned: Option<bool>,
    isFloating: Option<bool>,
    floatingX: Option<Option<int>>,
    floatingY: Option<Option<int>>,
    floatingWidth: Option<Option<int>>,
    floatingHeight: Option<Option<int>>)

  const NoPatch := Patch(None, None, None, None, None, None, None, None, None, None, None, None)

  /** `Object.assign(target, patch)`: every field the patch carries is overwritten, the rest kept. */
  function Patched(m: CardModel, p: Patch): (r: CardModel)
    ensures r.file == m.file
  {
    var c := m.content;
    CardModel(m.file, CardContent(
      p.frontmatterBody.GetOr(c.frontmatterBody),
      p.cwDataBody.GetOr(c.cwDataBody),
      p.body.GetOr(c.body),
      p.tagsLine.GetOr(c.tagsLine),
      p.images.GetOr(c.images),
      p.color.GetOr(c.color),
      p.isPinned.GetOr(c.isPinned),
      p.isFloating.GetOr(c.isFloating),
      p.floatingX.GetOr(c.floatingX),
      p.floatingY.GetOr(c.floatingY),
      p.floatingWidth.GetOr(c.floatingWidth),
      p.floatingHeight.GetOr(c.floatingHeight)))
  }

  /** An empty patch changes nothing, and applying the same patch twice is applying it once. */
  lemma {:induction false} PatchedLaws(m: CardModel, p: Patch)
    ensures Patched(m, NoPatch) == m
    ensures Patched(Patched(m, p), p) == Patched(m, p)
  {
  }

  /** `findIndex(model => model.file.path === filePath)`: the first card with that path, or -1. */
  function FindIndex(models: seq<CardModel>, filePath: string): (r: int)
    ensures -1 <= r < |models|
    ensures r == -1 <==> forall i :: 0 <= i < |models| ==> models[i].file.path != filePath
    ensures r >= 0 ==> models[r].file.path == filePath && forall i :: 0 <= i < r ==> models[i].file.path != filePath
  {
    if models == [] then -1
    else if models[0].file.path == filePath then 0
    else
      var r := FindIndex(models[1..], filePath);
      assert forall i :: 1 <= i < |models| ==> models[i] == models[1..][i - 1];
      if r == -1 then -1 else r + 1
  }

  /** The list after `patchCardModel`: the first card with the path patched, the rest as they were. */
  function PatchAt(models: seq<CardModel>, filePath: string, patch: Patch): seq<CardModel>
  {
    var idx := FindIndex(models, filePath);
    if idx < 0 then models else models[idx := Patched(models[idx], patch)]
  }

  /**
   * Patching touches one card at most: the list keeps its length and order,
   * the first card with the path takes the patch, and a path no card has
   * leaves the list as it is.
   */
  lemma {:induction false} PatchAtSpec(models: seq<CardModel>, filePath: string, patch: Patch)
    ensures |PatchAt(models, filePath, patch)| == |models|
    ensures forall i :: 0 <= i < |models| && (models[i].file.path != filePath || exists j :: 0 <= j < i && models[j].file.path == filePath)
                        ==> PatchAt(models, filePath, patch)[i] == models[i]
    ensures forall i :: 0 <= i < |models| && models[i].file.path == filePath && (forall j :: 0 <= j < i ==> models[j].file.path != filePath)
                        ==> PatchAt(models, filePath, patch)[i] == Patched(models[i], patch)
    ensures (forall i :: 0 <= i < |models| ==> models[i].file.path != filePath) ==> PatchAt(models, filePath, patch) == models
  {
  }

  /** No two cards are pinned at once. */
  predicate AtMostOnePinned(models: seq<CardModel>)
  {
    forall i, j :: 0 <= i < |models| && 0 <= j < |models| && i != j && models[i].content.isPinned ==> !models[j].content.isPinned
  }

  /** `models.some(entry => entry.file.path !== filePath && entry.isPinned)`. */
  predicate OtherPinned(models: seq<CardModel>, filePath: string)
  {
    exists i :: 0 <= i < |models| && models[i].file.path != filePath && models[i].content.isPinned
  }

  /* ------------------------------------------------------------------ search */

  /** How many non-space characters `t` starts with. */
  function WordLength(t: string): (n: nat)
    ensures n <= |t| && NoSpace(t[..n]) && (n < |t| ==> IsSpace(t[n]))
  {
    if t == [] || IsSpace(t[0]) then 0
    else
      var n := 1 + WordLength(t[1..]);
      assert forall i :: 1 <= i < n ==> t[..n][i] == t[1..][..n - 1][i - 1];
      n
  }

  /**
   * `s.split(/[\s　]+/).map(item => item.trim()).filter(item => item.length > 0)`:
   * the maximal runs of non-space characters, in order.
   */
  function Words(s: string): (ws: seq<string>)
    ensures forall i :: 0 <= i < |ws| ==> ws[i] != [] && NoSpace(ws[i])
    decreases |s|
  {
    var t := s[LeadingSpace(s)..];
    if t == [] then []
    else
      var n := WordLength(t);
      [t[..n]] + Words(t[n..])
  }

  lemma {:induction false} WordLengthOf(w: string, rest: string)
    requires NoSpace(w) && (rest == [] || IsSpace(rest[0]))
    ensures WordLength(w + rest) == |w|
  {
    if w != [] {
      assert (w + rest)[1..] == w[1..] + rest;
      WordLengthOf(w[1..], rest);
    } else {
      assert w + rest == rest;
    }
  }

  /** Text that starts with a whole word splits into that word and the words of the rest. */
  lemma {:induction false} WordsAtWord(s: string, w: string)
    requires w != [] && NoSpace(w) && StartsWith(s, w) && (|s| == |w| || IsSpace(s[|w|]))
    ensures Words(s) == [w] + Words(s[|w|..])
  {
    assert s == w + s[|w|..];
    WordLengthOf(w, s[|w|..]);
    assert LeadingSpace(s) == 0;
  }

  /** A single leading space is skipped. */
  lemma {:induction false} WordsAfterSpace(j: string)
    requires j == [] || !IsSpace(j[0])
    ensures Words(" " + j) == Words(j)
  {
    assert (" " + j)[1..] == j;
    assert LeadingSpace(" " + j) == 1;
    assert LeadingSpace(j) == 0;
  }

  /** A word followed by a space and text that starts with a word. */
  lemma {:induction false} WordsCons(w: string, j: string)
    requires w != [] && NoSpace(w) && (j == [] || !IsSpace(j[0]))
    ensures Words(w + " " + j) == [w] + Words(j)
  {
    var s := w + " " + j;
    assert s[..|w|] == w && s[|w|..] == " " + j;
    WordsAtWord(s, w);
    WordsAfterSpace(j);
  }

  /** Splitting words joined by single spaces gives the words back. */
  lemma {:induction false} WordsOfJoin(ws: seq<string>)
    requires forall i :: 0 <= i < |ws| ==> ws[i] != [] && NoSpace(ws[i])
    ensures Words(Join(ws, " ")) == ws
  {
    if ws != [] {
      var w, rest := ws[0], ws[1..];
      assert ws == [w] + rest;
      JoinCons(w, rest, " ");
      if rest == [] {
        WordLengthOf(w, []);
        assert w + [] == w;
        assert LeadingSpace(w) == 0;
      } else {
        WordsOfJoin(rest);
        JoinHead(rest);
        WordsCons(w, Join(rest, " "));
      }
    }
  }

  /** Words joined by spaces start with a non-space character. */
  lemma {:induction false} JoinHead(ws: seq<string>)
    requires ws != [] && ws[0] != [] && NoSpace(ws[0])
    ensures Join(ws, " ") != [] && !IsSpace(Join(ws, " ")[0])
  {
    JoinCons(ws[0], ws[1..], " ");
    assert ws == [ws[0]] + ws[1..];
  }

  /** A card matches a token when its body or its tag line contains it, ignoring case. */
  predicate MatchesToken(m: CardModel, token: string)
  {
    Contains(ToLower(m.content.body), token) || Contains(ToLower(m.content.tagsLine), token)
  }

  predicate MatchesAll(m: CardModel, tokens: seq<string>)
  {
    forall i :: 0 <= i < |tokens| ==> MatchesToken(m, tokens[i])
  }

  /** The filter keeping the cards that match every token. */
  function MatchingAll(tokens: seq<string>): CardModel -> bool
  {
    (m: CardModel) => MatchesAll(m, tokens)
  }

  function FilterMatching(models: seq<CardModel>, tokens: seq<string>): (r: seq<CardModel>)
    ensures r == Seqs.Filter(models, MatchingAll(tokens))
    ensures |r| <= |models|
    ensures forall m :: m in r <==> m in models && MatchesAll(m, tokens)
    ensures forall m :: m in models && !MatchesAll(m, tokens) ==> m !in r
    ensures multiset(r) <= multiset(models)
  {
    if models == [] then []
    else
      assert models == [models[0]] + models[1..];
      Seqs.FilterCons(models[0], models[1..], MatchingAll(tokens));
      (if MatchesAll(models[0], tokens) then [models[0]] else []) + FilterMatching(models[1..], tokens)
  }

  /**
   * `filterModelsBySearch`: a query with no words keeps the list as it is;
   * otherwise exactly the cards that contain every word of the lower-cased
   * query, in their order.
   */
  function FilterModelsBySearch(models: seq<CardModel>, query: string): (r: seq<CardModel>)
    ensures Words(ToLower(query)) == [] ==> r == models
    ensures Words(ToLower(query)) != [] ==> r == Seqs.Filter(models, MatchingAll(Words(ToLower(query))))
    ensures forall m :: m in r <==> m in models && MatchesAll(m, Words(ToLower(query)))
    ensures multiset(r) <= multiset(models)
  {
    var tokens := Words(ToLower(query));
    if tokens == [] then models else FilterMatching(models, tokens)
  }

  /** `getVisibleModels` and `getFloatingModels`: the cards in the list and the cards floating over it. */
  /** The filter keeping the cards whose floating state is `floating`. */
  function FloatingIs(floating: bool): CardModel -> bool
  {
    (m: CardModel) => m.content.isFloating == floating
  }

  function ModelsFloating(models: seq<CardModel>, floating: bool): (r: seq<CardModel>)
    ensures r == Seqs.Filter(models, FloatingIs(floating))
    ensures forall m :: m in r <==> m in models && m.content.isFloating == floating
    ensures multiset(r) <= multiset(models)
  {
    if models == [] then []
    else
      assert models == [models[0]] + models[1..];
      Seqs.FilterCons(models[0], models[1..], FloatingIs(floating));
      (if models[0].content.isFloating == floating then [models[0]] else []) + ModelsFloating(models[1..], floating)
  }

  /* ----------------------------------------------------------------- sorting */

  datatype SortMode = CtimeAsc | CtimeDesc | MtimeAsc | MtimeDesc

  /** `compareCards(a, b) <= 0`. */
  predicate TimeBefore(mode: SortMode, a: CardModel, b: CardModel)
  {
    match mode
    case CtimeAsc => a.file.ctime <= b.file.ctime
    case CtimeDesc => b.file.ctime <= a.file.ctime
    case MtimeAsc => a.file.mtime <= b.file.mtime
    case MtimeDesc => b.file.mtime <= a.file.mtime
  }

  /** The comparator of `getSortedModels`: pinned cards first, then by the sort mode's timestamp. */
  function CardOrder(mode: SortMode): (CardModel, CardModel) -> bool
  {
    (a: CardModel, b: CardModel) =>
      if a.content.isPinned != b.content.isPinned then a.content.isPinned else TimeBefore(mode, a, b)
  }

  lemma {:induction false} CardOrderIsPreorder(mode: SortMode)
    ensures Sorting.TotalPreorder(CardOrder(mode))
  {
  }

  /** Every pinned card comes before every unpinned one. */
  predicate PinnedFirst(models: seq<CardModel>)
  {
    forall i, j :: 0 <= i < j < |models| && models[j].content.isPinned ==> models[i].content.isPinned
  }

  /** `getSortedModels`: a stable sort by `CardOrder`. */
  function SortedModels(models: seq<CardModel>, mode: SortMode): (r: seq<CardModel>)
    ensures multiset(r) == multiset(models)
    ensures PinnedFirst(r)
    ensures Sorting.Sorted(r, CardOrder(mode))
  {
    CardOrderIsPreorder(mode);
    Sorting.SortSorted(models, CardOrder(mode));
    Sorting.Sort(models, CardOrder(mode))
  }

  /** Cards the comparator cannot tell apart keep their order in the list. */
  lemma {:induction false} SortedModelsStable(models: seq<CardModel>, mode: SortMode, x: CardModel)
    ensures Sorting.TiedWith(SortedModels(models, mode), x, CardOrder(mode)) == Sorting.TiedWith(models, x, CardOrder(mode))
  {
    CardOrderIsPreorder(mode);
    Sorting.SortStable(models, x, CardOrder(mode));
  }

  /* ------------------------------------------------------------------- store */

  /** The state of the view that outlives any one card's editor. */
  class InspirationView {
    /** `cardModels`: every card of the configured folder, as last read or patched. */
    var cardModels: seq<CardModel>
    /** `floatingStartPosByPath`. */
    var floatingStartPosByPath: GeometryMemory
    var sortMode: SortMode
    var searchQuery: string

    constructor (models: seq<CardModel>)
      ensures cardModels == models && floatingStartPosByPath == map[]
      ensures sortMode == CtimeDesc && searchQuery == ""
    {
      cardModels := models;
      floatingStartPosByPath := map[];
      sortMode := CtimeDesc;
      searchQuery := "";
    }

    /** The cards the list shows: the ones not floating that match the search, pinned first. */
    function ListedModels(): (r: seq<CardModel>)
      reads this
      ensures PinnedFirst(r)
    {
      Listed(cardModels, searchQuery, sortMode)
    }

    /**
     * `patchCardModel`: the first card with the path takes the patched fields;
     * every other card, and every field the patch leaves out, is unchanged.
     */
    method PatchCardModel(filePath: string, patch: Patch)
      modifies this
      ensures cardModels == PatchAt(old(cardModels), filePath, patch)
      ensures floatingStartPosByPath == old(floatingStartPosByPath)
      ensures sortMode == old(sortMode) && searchQuery == old(searchQuery)
    {
      var idx := FindIndex(cardModels, filePath);
      if idx < 0 {
        return;
      }
      var target := cardModels[idx];
      cardModels := cardModels[idx := Patched(target, patch)];
    }

    /** A deleted card leaves the list; every other card keeps its place. */
    method RemoveCard(filePath: string)
      modifies this
      ensures cardModels == WithoutPath(old(cardModels), filePath)
      ensures forall m :: m in cardModels <==> m in old(cardModels) && m.file.path != filePath
      ensures multiset(cardModels) <= multiset(old(cardModels))
      ensures floatingStartPosByPath == old(floatingStartPosByPath)
    {
      cardModels := WithoutPath(cardModels, filePath);
    }

    /** A created card is appended. */
    method AddCard(model: CardModel)
      modifies this
      ensures cardModels == old(cardModels) + [model]
      ensures floatingStartPosByPath == old(floatingStartPosByPath)
    {
      cardModels := cardModels + [model];
    }
  }

  /** The cards the list shows: the ones not floating that match the search, pinned first. */
  function Listed(models: seq<CardModel>, query: string, mode: SortMode): (r: seq<CardModel>)
    ensures PinnedFirst(r)
  {
    SortedModels(FilterModelsBySearch(ModelsFloating(models, false), query), mode)
  }

  /** The list shows exactly the cards that are not floating and match every word of the search. */
  lemma {:induction false} ListedMembers(models: seq<CardModel>, query: string, mode: SortMode, m: CardModel)
    ensures m in Listed(models, query, mode) <==> m in models && !m.content.isFloating && MatchesAll(m, Words(ToLower(query)))
  {
    var filtered := FilterModelsBySearch(ModelsFloating(models, false), query);
    var r := SortedModels(filtered, mode);
    assert m in r <==> m in multiset(r);
    assert m in filtered <==> m in multiset(filtered);
  }

  /** `models.filter(entry => entry.file.path !== filePath)`. */
  /** The filter keeping the cards stored anywhere but `filePath`. */
  function PathIsNot(filePath: string): CardModel -> bool
  {
    (m: CardModel) => m.file.path != filePath
  }

  function WithoutPath(models: seq<CardModel>, filePath: string): (r: seq<CardModel>)
    ensures r == Seqs.Filter(models, PathIsNot(filePath))
    ensures forall m :: m in r <==> m in models && m.file.path != filePath
    ensures multiset(r) <= multiset(models)
  {
    if models == [] then []
    else
      assert models == [models[0]] + models[1..];
      Seqs.FilterCons(models[0], models[1..], PathIsNot(filePath));
      (if models[0].file.path != filePath then [models[0]] else []) + WithoutPath(models[1..], filePath)
  }

  /** No two cards share a vault path. */
  predicate UniquePaths(models: seq<CardModel>)
  {
    forall i, j :: 0 <= i < j < |models| ==> models[i].file.path != models[j].file.path
  }

  /**
   * Pin exclusivity: a list with at most one pinned card keeps that property
   * when a card is unpinned, or is pinned while no other card is.
   */
  lemma {:induction false} PinKeepsExclusive(models: seq<CardModel>, filePath: string, pinned: bool, patch: Patch)
    requires AtMostOnePinned(models) && UniquePaths(models)
    requires patch.isPinned == Some(pinned)
    requires pinned ==> !OtherPinned(models, filePath)
    ensures AtMostOnePinned(PatchAt(models, filePath, patch))
  {
    var idx := FindIndex(models, filePath);
    if idx >= 0 {
      var r := models[idx := Patched(models[idx], patch)];
      forall i, j | 0 <= i < |r| && 0 <= j < |r| && i != j && r[i].content.isPinned
        ensures !r[j].content.isPinned
      {
        if i == idx && pinned {
          assert models[j].file.path != filePath;
        } else if j == idx && pinned {
          assert false;
        }
      }
    }
  }

  /** A patch that leaves `isPinned` out cannot break pin exclusivity. */
  lemma {:induction false} PatchKeepsExclusive(models: seq<CardModel>, filePath: string, patch: Patch)
    requires AtMostOnePinned(models) && patch.isPinned == None
    ensures AtMostOnePinned(PatchAt(models, filePath, patch))
  {
  }
}
