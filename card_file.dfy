/**
 * A card file as a whole: `parseCardContent` takes the text apart into front
 * matter, metadata region and body and reads the metadata's fields, and
 * `composeContent` writes the three parts back as one text.
 */
module CardFile {
  import opened Wrappers
  import opened Text
  import opened Json
  import opened CardCodec

  const FenceEnd: string := "\n---"

  /** The three parts of a card text, before its metadata is read. */
  datatype Sections = Sections(frontmatterBody: Option<string>, cwDataBody: Option<string>, body: string)

  /**
   * The structural half of `parseCardContent`: line ends normalised, the front
   * matter taken off the top, the first metadata region cut out of what is
   * left, and the remaining text's leading newlines dropped.
   */
  function SplitSections(content: string): (r: Sections)
    ensures r.body == [] || r.body[0] != '\n'
    ensures r.cwDataBody.Some? ==> !Contains(r.cwDataBody.value, CwClose)
  {
    var normalized := NormalizeNewlines(content);
    var fmInfo := GetFrontmatterInfo(normalized);
    var after := if fmInfo.Some? then normalized[fmInfo.value.endIndex..] else normalized;
    var cwInfo := GetCwDataInfo(after);
    CwDataInfoSpec(after);
    var bodyWithTags :=
      if cwInfo.Some? then after[..cwInfo.value.startIndex] + after[cwInfo.value.endIndex..] else after;
    Sections(
      if fmInfo.Some? then Some(fmInfo.value.body) else None,
      if cwInfo.Some? then Some(cwInfo.value.body) else None,
      TrimLeadingNewlines(bodyWithTags))
  }

  /** `parseCardContent`: the three parts, and the card fields read from the metadata object. */
  function ParseCardContent(content: string, parse: JsonParser): (r: CardContent)
    ensures r.body == [] || r.body[0] != '\n'
    ensures |r.images| <= MaxImages
    ensures r.color.Some? ==> IsHexColor(r.color.value) && NoLowerCase(r.color.value)
    ensures r.cwDataBody.None? ==> !r.isPinned && !r.isFloating && r.images == [] && r.tagsLine == [] && r.color.None?
  {
    var sections := SplitSections(content);
    var obj := ParseCwDataObject(sections.cwDataBody, parse);
    assert obj.None? ==> TagTokens(Prop(obj, "tags")) == [];
    CardContent(
      sections.frontmatterBody,
      sections.cwDataBody,
      sections.body,
      FormatTagLine(TagTokens(Prop(obj, "tags"))),
      ExtractImagePaths(Prop(obj, "images")),
      NormalizeHexColor(Prop(obj, "color")),
      IsTrue(Prop(obj, "ispinned")),
      IsTrue(Prop(obj, "isfloating")),
      NormalizeFiniteNumber(Prop(obj, "floatx")),
      NormalizeFiniteNumber(Prop(obj, "floaty")),
      NormalizeFiniteNumber(Prop(obj, "floatw")),
      NormalizeFiniteNumber(Prop(obj, "floath")))
  }

  /* ----------------------------------------------------------------- compose */

  /** A part `composeContent` writes: present, not blank, and without its trailing newlines. */
  function Emitted(part: Option<string>): Option<string>
  {
    if part.Some? && !IsBlank(part.value) then Some(TrimTrailingNewlines(part.value)) else None
  }

  function FrontmatterChunk(f: string): string
  {
    FenceOpen + f + FenceEnd
  }

  function CwChunk(c: string): string
  {
    CwOpen + "\n" + c + CwClose
  }

  /** What precedes the body: each emitted block followed by the blank-line separator. */
  function Head(f: Option<string>, c: Option<string>): string
  {
    match (f, c)
    case (Some(x), Some(y)) => FrontmatterChunk(x) + BlockSeparator + (CwChunk(y) + BlockSeparator)
    case (Some(x), None) => FrontmatterChunk(x) + BlockSeparator
    case (None, Some(y)) => CwChunk(y) + BlockSeparator
    case (None, None) => []
  }

  /**
   * `composeContent`: the non-blank front matter and metadata blocks, then the
   * body without leading or trailing newlines, joined by blank lines.
   */
  function ComposeContent(fm: Option<string>, cw: Option<string>, body: string): string
  {
    Join(Blocks(Emitted(fm), Emitted(cw)) + [TrimNewlines(body)], BlockSeparator)
  }

  /** The blocks written before the body, in order. */
  function Blocks(f: Option<string>, c: Option<string>): seq<string>
  {
    (if f.Some? then [FrontmatterChunk(f.value)] else []) + (if c.Some? then [CwChunk(c.value)] else [])
  }

  /** Joining the blocks and the body puts a blank line after each block. */
  lemma {:induction false} JoinBlocks(f: Option<string>, c: Option<string>, b: string)
    ensures Join(Blocks(f, c) + [b], BlockSeparator) == Head(f, c) + b
  {
    var blocks := Blocks(f, c);
    var sep := BlockSeparator;
    if blocks == [] {
      assert blocks + [b] == [b];
    } else {
      JoinAppend(blocks, b, sep);
      if f.Some? && c.Some? {
        var x, y := FrontmatterChunk(f.value), CwChunk(c.value);
        assert blocks == [x, y];
        assert [x, y][1..] == [y];
        assert Join(blocks, sep) == x + sep + y;
      } else if f.Some? {
        assert blocks == [FrontmatterChunk(f.value)];
      } else {
        assert blocks == [CwChunk(c.value)];
      }
    }
  }

  /** The composed text is the emitted blocks, each followed by a blank line, and then the body. */
  lemma {:induction false} ComposeLayout(fm: Option<string>, cw: Option<string>, body: string)
    ensures ComposeContent(fm, cw, body) == Head(Emitted(fm), Emitted(cw)) + TrimNewlines(body)
  {
    JoinBlocks(Emitted(fm), Emitted(cw), TrimNewlines(body));
  }

  /* ------------------------------------------------------------- round trip */

  /** A front-matter text that reads back as itself: no line after its first is `---`, no trailing newline, no CR. */
  predicate FrontmatterRoundTrips(f: string)
  {
    !IsBlank(f) && f[|f| - 1] != '\n' && '\r' !in f && !Contains(f + "\n", FenceClose)
  }

  /** A metadata text that reads back as itself: it opens with a visible character and never closes the region early. */
  predicate CwRoundTrips(c: string)
  {
    c != [] && !IsSpace(c[0]) && c[|c| - 1] != '\n' && '\r' !in c && !Contains(c, CwClose)
  }

  /** A body that reads back as itself; without a metadata block it must not open one, and with neither block it must not open front matter. */
  predicate BodyRoundTrips(fm: Option<string>, cw: Option<string>, b: string)
  {
    '\r' !in b && (b == [] || (b[0] != '\n' && b[|b| - 1] != '\n'))
    && (cw.None? ==> !Contains(b, CwOpen))
    && (fm.None? && cw.None? ==> !StartsWith(b, FenceOpen))
  }

  lemma {:induction false} TrimTrailingNewlinesFixed(s: string)
    requires s == [] || s[|s| - 1] != '\n'
    ensures TrimTrailingNewlines(s) == s
  {
  }

  lemma {:induction false} TrimNewlinesFixed(s: string)
    requires s == [] || (s[0] != '\n' && s[|s| - 1] != '\n')
    ensures TrimNewlines(s) == s
  {
    assert TrimLeadingNewlines(s) == s;
  }

  lemma {:induction false} EmittedFrontmatter(fm: Option<string>)
    requires fm.Some? ==> FrontmatterRoundTrips(fm.value)
    ensures Emitted(fm) == fm
  {
  }

  lemma {:induction false} EmittedCw(cw: Option<string>)
    requires cw.Some? ==> CwRoundTrips(cw.value)
    ensures Emitted(cw) == cw
  {
    if cw.Some? {
      BlankIffAllSpace(cw.value);
      assert !AllSpace(cw.value) by { assert !IsSpace(cw.value[0]); }
    }
  }

  /** No closing fence starts inside the front matter: the one after it is the first. */
  lemma {:induction false} FenceNotEarly(f: string, i: int)
    requires 0 <= i < |f| && f[|f| - 1] != '\n' && !Contains(f + "\n", FenceClose)
    ensures !IsAt(f + FenceClose, FenceClose, i)
  {
    var s := f + FenceClose;
    if i + |FenceClose| <= |f| + 1 {
      assert !IsAt(f + "\n", FenceClose, i);
      assert (f + "\n")[i..i + |FenceClose|] == s[i..i + |FenceClose|];
    } else if |f| - i == 1 {
      assert s[i] != FenceClose[0];
    } else if |f| - i == 2 {
      assert s[i + 2] != FenceClose[2];
    } else {
      assert s[i + 3] != FenceClose[3];
    }
  }

  /** No closing `\n--->` starts inside a metadata text that does not contain one. */
  lemma {:induction false} CwCloseNotEarly(c: string, k: int)
    requires 0 <= k < |c| && !Contains(c, CwClose)
    ensures !IsAt(c + CwClose, CwClose, k)
  {
    var s := c + CwClose;
    if k + |CwClose| <= |c| {
      assert !IsAt(c, CwClose, k);
      assert s[k..k + |CwClose|] == c[k..k + |CwClose|];
    } else {
      var m := |c| - k;
      assert s[k + m] != CwClose[m];
    }
  }

  /** The front matter of a composed text is the one written, and what follows its closing fence is a newline and the rest. */
  lemma {:induction false} FrontmatterOfComposed(s: string, f: string, rest: string)
    requires FrontmatterRoundTrips(f) && s == FrontmatterChunk(f) + BlockSeparator + rest
    ensures GetFrontmatterInfo(s) == Some(FrontmatterInfo(f, |f| + 9)) && s[|f| + 9..] == "\n" + rest
  {
    FrontmatterLayout(s, f, rest);
    FirstFenceAt(s, f);
  }

  /** Where the fences of a composed front matter sit. */
  lemma {:induction false} FrontmatterLayout(s: string, f: string, rest: string)
    requires s == FrontmatterChunk(f) + BlockSeparator + rest
    ensures |f| + 9 <= |s| && StartsWith(s, FenceOpen) && s[4..|f| + 9] == f + FenceClose
    ensures s[|f| + 9..] == "\n" + rest
  {
    assert s == FenceOpen + (f + FenceClose) + ("\n" + rest);
    assert s[..4] == FenceOpen;
  }

  /** The first closing fence after the opening one is the one that follows `f`. */
  lemma {:induction false} FirstFenceAt(s: string, f: string)
    requires FrontmatterRoundTrips(f)
    requires |f| + 9 <= |s| && StartsWith(s, FenceOpen) && s[4..|f| + 9] == f + FenceClose
    ensures GetFrontmatterInfo(s) == Some(FrontmatterInfo(f, |f| + 9))
  {
    var e := 4 + |f|;
    IsAtSlice(s, 4, e + 5, FenceClose, |f|);
    var idx := IndexOfFrom(s, FenceClose, 4);
    if idx != e {
      assert idx != -1 && 4 <= idx < e;
      IsAtInSlice(s, 4, e + 5, FenceClose, idx);
      FenceNotEarly(f, idx - 4);
      assert false;
    }
    assert s[4..idx] == (f + FenceClose)[..|f|];
  }

  /** A metadata block holding `c` opens at `i` of `s`, behind nothing or one newline. */
  predicate CwBlockAt(s: string, i: nat, c: string)
  {
    i + 18 + |c| <= |s| && IsAt(s, CwOpen, i) && s[i + 12] == '\n'
    && s[i + 13..i + 18 + |c|] == c + CwClose
    && (i == 0 || (i == 1 && s[0] == '\n'))
  }

  /** Where the pieces of a composed metadata block sit. */
  lemma {:induction false} CwComposedFacts(s: string, pre: string, c: string, rest: string)
    requires pre == [] || pre == "\n"
    requires s == pre + (CwChunk(c) + BlockSeparator + rest)
    ensures CwBlockAt(s, |pre|, c)
  {
    var i := |pre|;
    assert s == pre + (CwOpen + ("\n" + (c + CwClose))) + (BlockSeparator + rest);
    assert s[i..i + 12] == CwOpen;
    assert s[i + 13..i + 18 + |c|] == c + CwClose;
  }

  lemma {:induction false} CwBlockShape(s: string, i: nat, c: string)
    requires CwBlockAt(s, i, c)
    ensures CwShape(s, i, i + 13, i + 13 + |c|) && s[i + 13..i + 13 + |c|] == c
  {
    var b := i + 13;
    var close := b + |c|;
    var tail := s[b..close + 5];
    assert tail[..|c|] == c && tail[|c|..] == CwClose;
    assert s[b..close] == c;
    assert IsAt(s, CwClose, close);
    assert s[i + 12..b] == "\n";
  }

  /** With no opening tag before `i`, the region found starts at `i`. */
  lemma {:induction false} CwFoundStart(s: string, i: nat, b: int, close: int)
    requires CwShape(s, i, b, close) && (i == 0 || (i == 1 && s[0] == '\n'))
    ensures GetCwDataInfo(s).Some? && GetCwDataInfo(s).value.startIndex == i
  {
    CwDataInfoSpec(s);
    var info := GetCwDataInfo(s).value;
    if info.startIndex > i {
      CwMatchAtComplete(s, i, b, close);
      assert false;
    }
  }

  /** A region opening at `i` with no earlier opening tag is the one found; its body runs to the first `\n--->`. */
  lemma {:induction false} CwFirstAt(s: string, i: nat, c: string)
    requires c != [] && !IsSpace(c[0]) && !Contains(c, CwClose)
    requires CwBlockAt(s, i, c)
    ensures GetCwDataInfo(s) == Some(CwDataInfo(c, i, i + 18 + |c|))
  {
    var b := i + 13;
    var close := b + |c|;
    CwBlockShape(s, i, c);
    CwFoundStart(s, i, b, close);
    CwDataInfoSpec(s);
    var info := GetCwDataInfo(s).value;
    var rClose := info.endIndex - |CwClose|;
    var rb := rClose - |info.body|;
    CwBodyStart(s, i, b, rb);
    assert rb == b;
    CwBodyEnd(s, b, c, rClose);
    assert info.body == c;
  }

  lemma {:induction false} CwBodyStart(s: string, i: nat, b: nat, rb: int)
    requires b == i + 13 && b < |s| && !IsSpace(s[b])
    requires i + 12 < rb <= |s| && AllSpace(s[i + 12..rb])
    ensures rb <= b
  {
    if rb > b {
      assert false;
    }
  }

  lemma {:induction false} CwBodyEnd(s: string, b: nat, c: string, rClose: int)
    requires !Contains(c, CwClose)
    requires b + |c| + 5 <= |s| && s[b..b + |c| + 5] == c + CwClose
    requires b <= rClose && IsAt(s, CwClose, rClose) && !Contains(s[b..rClose], CwClose)
    ensures rClose == b + |c|
  {
    var close := b + |c|;
    if rClose < close {
      IsAtInSlice(s, b, close + 5, CwClose, rClose);
      CwCloseNotEarly(c, rClose - b);
      assert false;
    }
    assert IsAt(s, CwClose, close);
    CwCloseNoOverlap(s, close, rClose);
    if rClose > close {
      IsAtInSlice(s, b, rClose, CwClose, close);
      assert false;
    }
  }

  /** Two occurrences of `\n--->` never overlap. */
  lemma {:induction false} CwCloseNoOverlap(s: string, x: int, y: int)
    requires IsAt(s, CwClose, x)
    ensures x < y < x + |CwClose| ==> !IsAt(s, CwClose, y)
  {
    if x < y < x + |CwClose| {
      assert s[y] == CwClose[y - x] != '\n';
    }
  }

  /** The region the composed text holds is the first one found, and its body is the metadata text. */
  lemma {:induction false} CwOfComposed(s: string, pre: string, c: string, rest: string)
    requires pre == [] || pre == "\n"
    requires CwRoundTrips(c) && s == pre + (CwChunk(c) + BlockSeparator + rest)
    ensures GetCwDataInfo(s) == Some(CwDataInfo(c, |pre|, |pre| + 18 + |c|))
  {
    CwComposedFacts(s, pre, c, rest);
    CwFirstAt(s, |pre|, c);
  }

  /** Cutting the metadata block out of a composed text leaves what was around it. */
  lemma {:induction false} CutCw(s: string, pre: string, c: string, rest: string)
    requires s == pre + (CwChunk(c) + BlockSeparator + rest)
    ensures |pre| + 18 + |c| <= |s| && s[..|pre|] + s[|pre| + 18 + |c|..] == pre + BlockSeparator + rest
  {
    var x := CwChunk(c);
    assert |x| == 18 + |c|;
    assert s == pre + x + (BlockSeparator + rest);
    assert s[..|pre|] == pre;
    assert s[|pre| + |x|..] == BlockSeparator + rest;
  }

  lemma {:induction false} NoCwOpenAt(pre: string, b: string, i: int)
    requires pre == [] || pre == "\n"
    requires !Contains(b, CwOpen)
    ensures !IsAt(pre + b, CwOpen, i)
  {
    var s := pre + b;
    if 0 <= i < |pre| {
      assert s[i] != CwOpen[0];
    } else if |pre| <= i && i + |CwOpen| <= |s| {
      assert !IsAt(b, CwOpen, i - |pre|);
      assert s[i..i + |CwOpen|] == b[i - |pre|..i - |pre| + |CwOpen|];
    }
  }

  /** A text that never opens a metadata region has none, behind an optional leading newline too. */
  lemma {:induction false} NoCwIn(pre: string, b: string)
    requires pre == [] || pre == "\n"
    requires !Contains(b, CwOpen)
    ensures GetCwDataInfo(pre + b).None?
  {
    forall i, x, y ensures !CwShape(pre + b, i, x, y) {
      NoCwOpenAt(pre, b, i);
    }
    CwDataInfoSpec(pre + b);
  }

  lemma {:induction false} NoCrInComposed(fm: Option<string>, cw: Option<string>, body: string)
    requires fm.Some? ==> FrontmatterRoundTrips(fm.value)
    requires cw.Some? ==> CwRoundTrips(cw.value)
    requires '\r' !in body
    ensures '\r' !in Head(fm, cw) + body
  {
    assert '\r' !in FenceOpen && '\r' !in FenceEnd && '\r' !in BlockSeparator;
    assert '\r' !in CwOpen + "\n" && '\r' !in CwClose;
  }

  /** `SplitSections` once the front matter and the region have been located. */
  lemma {:induction false} SplitSectionsBy(s: string, fmi: Option<FrontmatterInfo>, after: string, cwi: Option<CwDataInfo>, rest: string, r: Sections)
    requires '\r' !in s && GetFrontmatterInfo(s) == fmi
    requires after == if fmi.Some? then s[fmi.value.endIndex..] else s
    requires GetCwDataInfo(after) == cwi
    requires rest == if cwi.Some? then after[..cwi.value.startIndex] + after[cwi.value.endIndex..] else after
    requires r.frontmatterBody == (if fmi.Some? then Some(fmi.value.body) else None)
    requires r.cwDataBody == (if cwi.Some? then Some(cwi.value.body) else None)
    requires r.body == TrimLeadingNewlines(rest)
    ensures SplitSections(s) == r
  {
  }

  /** Text with front matter and a metadata block. */
  lemma {:induction false} SectionsOfBoth(s: string, f: string, c: string, b: string)
    requires FrontmatterRoundTrips(f) && CwRoundTrips(c) && (b == [] || b[0] != '\n') && '\r' !in s
    requires s == FrontmatterChunk(f) + BlockSeparator + (CwChunk(c) + BlockSeparator + b)
    ensures SplitSections(s) == Sections(Some(f), Some(c), b)
  {
    FrontmatterOfComposed(s, f, CwChunk(c) + BlockSeparator + b);
    var after := s[|f| + 9..];
    CwOfComposed(after, "\n", c, b);
    CutCw(after, "\n", c, b);
    var rest := after[..1] + after[19 + |c|..];
    assert rest == "\n" + BlockSeparator + b;
    TrimLeadingNewlinesAfter("\n" + BlockSeparator, b);
    assert TrimLeadingNewlines(rest) == b;
    SplitSectionsBy(s, Some(FrontmatterInfo(f, |f| + 9)), after, Some(CwDataInfo(c, 1, 19 + |c|)), rest,
      Sections(Some(f), Some(c), b));
  }

  /** Text with front matter and no metadata block. */
  lemma {:induction false} SectionsOfFrontmatter(s: string, f: string, b: string)
    requires FrontmatterRoundTrips(f) && (b == [] || b[0] != '\n') && !Contains(b, CwOpen) && '\r' !in s
    requires s == FrontmatterChunk(f) + BlockSeparator + b
    ensures SplitSections(s) == Sections(Some(f), None, b)
  {
    FrontmatterOfComposed(s, f, b);
    NoCwIn("\n", b);
    TrimLeadingNewlinesAfter("\n", b);
  }

  /** Text with a metadata block and no front matter. */
  lemma {:induction false} SectionsOfCw(s: string, c: string, b: string)
    requires CwRoundTrips(c) && (b == [] || b[0] != '\n') && '\r' !in s
    requires s == CwChunk(c) + BlockSeparator + b
    ensures SplitSections(s) == Sections(None, Some(c), b)
  {
    NoFrontmatterBeforeCw(s, c, b);
    CwBlockFactsAtStart(s, c, b);
    SplitSectionsBy(s, None, s, Some(CwDataInfo(c, 0, 18 + |c|)), s[..0] + s[18 + |c|..], Sections(None, Some(c), b));
  }

  lemma {:induction false} NoFrontmatterBeforeCw(s: string, c: string, b: string)
    requires s == CwChunk(c) + BlockSeparator + b
    ensures GetFrontmatterInfo(s).None?
  {
    assert s[0] == '<';
  }

  lemma {:induction false} CwBlockFactsAtStart(s: string, c: string, b: string)
    requires CwRoundTrips(c) && (b == [] || b[0] != '\n')
    requires s == CwChunk(c) + BlockSeparator + b
    ensures GetCwDataInfo(s) == Some(CwDataInfo(c, 0, 18 + |c|))
    ensures 18 + |c| <= |s| && TrimLeadingNewlines(s[..0] + s[18 + |c|..]) == b
  {
    CwInfoAtStart(s, c, b);
    CwRestAtStart(s, c, b);
  }

  lemma {:induction false} CwInfoAtStart(s: string, c: string, b: string)
    requires CwRoundTrips(c) && (b == [] || b[0] != '\n')
    requires s == CwChunk(c) + BlockSeparator + b
    ensures GetCwDataInfo(s) == Some(CwDataInfo(c, 0, 18 + |c|))
  {
    CwComposedAtStart(s, c, b);
    CwFirstAt(s, 0, c);
  }

  lemma {:induction false} CwComposedAtStart(s: string, c: string, rest: string)
    requires s == CwChunk(c) + BlockSeparator + rest
    ensures CwBlockAt(s, 0, c)
  {
    assert s == CwOpen + ("\n" + (c + CwClose)) + (BlockSeparator + rest);
    assert s[..12] == CwOpen;
    assert s[13..18 + |c|] == c + CwClose;
  }

  lemma {:induction false} CwRestAtStart(s: string, c: string, b: string)
    requires b == [] || b[0] != '\n'
    requires s == CwChunk(c) + BlockSeparator + b
    ensures 18 + |c| <= |s| && TrimLeadingNewlines(s[..0] + s[18 + |c|..]) == b
  {
    assert s[..0] + s[18 + |c|..] == BlockSeparator + b;
    TrimLeadingNewlinesAfter(BlockSeparator, b);
  }

  /** Text that is only a body. */
  lemma {:induction false} SectionsOfBody(b: string)
    requires (b == [] || b[0] != '\n') && !Contains(b, CwOpen) && !StartsWith(b, FenceOpen) && '\r' !in b
    ensures SplitSections(b) == Sections(None, None, b)
  {
    assert [] + b == b;
    NoCwIn([], b);
  }

  /** Splitting the blocks and body a composed text is made of gives them back. */
  lemma {:induction false} SectionsOfHead(f: Option<string>, c: Option<string>, b: string)
    requires f.Some? ==> FrontmatterRoundTrips(f.value)
    requires c.Some? ==> CwRoundTrips(c.value)
    requires BodyRoundTrips(f, c, b) && '\r' !in Head(f, c) + b
    ensures SplitSections(Head(f, c) + b) == Sections(f, c, b)
  {
    match (f, c)
    case (Some(x), Some(y)) => HeadOfBoth(x, y, b);
    case (Some(x), None) => SectionsOfFrontmatter(Head(f, c) + b, x, b);
    case (None, Some(y)) => SectionsOfCw(Head(f, c) + b, y, b);
    case (None, None) => assert Head(f, c) + b == b; SectionsOfBody(b);
  }

  lemma {:induction false} HeadOfBoth(f: string, c: string, b: string)
    requires FrontmatterRoundTrips(f) && CwRoundTrips(c) && (b == [] || b[0] != '\n')
    requires '\r' !in Head(Some(f), Some(c)) + b
    ensures SplitSections(Head(Some(f), Some(c)) + b) == Sections(Some(f), Some(c), b)
  {
    var s := Head(Some(f), Some(c)) + b;
    assert s == FrontmatterChunk(f) + BlockSeparator + (CwChunk(c) + BlockSeparator + b);
    SectionsOfBoth(s, f, c, b);
  }


  /**
   * `parseCardContent(composeContent(fm, cw, body))` gives back `fm`, `cw` and
   * `body` for parts that satisfy the round-trip conditions.
   */
  lemma {:induction false} ParseComposeRoundTrip(fm: Option<string>, cw: Option<string>, body: string, parse: JsonParser)
    requires fm.Some? ==> FrontmatterRoundTrips(fm.value)
    requires cw.Some? ==> CwRoundTrips(cw.value)
    requires BodyRoundTrips(fm, cw, body)
    ensures var r := ParseCardContent(ComposeContent(fm, cw, body), parse);
      r.frontmatterBody == fm && r.cwDataBody == cw && r.body == body
  {
    EmittedFrontmatter(fm);
    EmittedCw(cw);
    TrimNewlinesFixed(body);
    ComposeLayout(fm, cw, body);
    NoCrInComposed(fm, cw, body);
    SectionsOfHead(fm, cw, body);
  }
}
