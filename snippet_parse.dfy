/**
 * The snippet file of the `//` completion: a Markdown file of sections
 * opened by `## key` or `## key@preview` headings. Each section becomes a
 * snippet whose content is the section's lines with the blank lines at
 * either end removed; `{$cursor}` in the content marks where the cursor goes
 * once the snippet is inserted.
 */
module SnippetParse {
  import opened Wrappers
  import opened Text

  datatype SnippetItem = SnippetItem(key: string, content: string, preview: string, order: nat)

  const CursorMarker: string := "{$cursor}"

  /** `/^[A-Za-z]+$/`: a snippet key. */
  predicate IsKey(s: string)
  {
    |s| >= 1 && forall i :: 0 <= i < |s| ==> IsAsciiLetter(s[i])
  }

  /** The characters the regular-expression `.` does not match. */
  predicate IsLineTerminator(c: char)
  {
    c == '\n' || c == '\r' || c == '\U{2028}' || c == '\U{2029}'
  }

  /** How many ASCII letters `s` starts with. */
  function LetterRun(s: string): (n: nat)
    ensures n <= |s|
    ensures forall i :: 0 <= i < n ==> IsAsciiLetter(s[i])
    ensures n == |s| || !IsAsciiLetter(s[n])
  {
    if |s| > 0 && IsAsciiLetter(s[0]) then 1 + LetterRun(s[1..]) else 0
  }

  /** How many characters `s` starts with before its first line terminator: what `.*` takes. */
  function LineRun(s: string): (n: nat)
    ensures n <= |s|
    ensures forall i :: 0 <= i < n ==> !IsLineTerminator(s[i])
    ensures n == |s| || IsLineTerminator(s[n])
  {
    if |s| > 0 && !IsLineTerminator(s[0]) then 1 + LineRun(s[1..]) else 0
  }

  /** A snippet heading: its key and its (trimmed) explicit preview, empty when there is none. */
  datatype Heading = Heading(key: string, preview: string)

  /**
   * `/^##\s+([A-Za-z]+)(?:@(.*))?\s*$/` on the trimmed line. `\s+` takes the
   * whole white-space run after `##` and the key the whole letter run after
   * it; what follows is either white space only, or `@` and a preview that
   * `.*` takes up to the first line terminator with only white space after it.
   */
  function HeadingMatch(line: string): (r: Option<Heading>)
    ensures r.Some? ==> IsKey(r.value.key)
  {
    var t := Trim(line);
    if |t| < 2 || t[..2] != "##" then None
    else
      var ws := LeadingSpace(t[2..]);
      if ws == 0 then None else MatchKey(t[2 + ws..])
  }

  /** The key group and what follows it. */
  function MatchKey(u: string): (r: Option<Heading>)
    ensures r.Some? ==> IsKey(r.value.key) && Trim(r.value.preview) == r.value.preview
  {
    var k := LetterRun(u);
    if k == 0 then None
    else
      match MatchRest(u[k..])
      case Some(preview) => Some(Heading(u[..k], preview))
      case None => None
  }

  /** `(?:@(.*))?\s*$` after the key: the trimmed preview group, empty when the group did not take part. */
  function MatchRest(rest: string): (r: Option<string>)
    ensures r.Some? ==> Trim(r.value) == r.value
  {
    if rest != [] && rest[0] == '@' then
      var a := LineRun(rest[1..]);
      if AllSpace(rest[1 + a..]) then
        TrimIdempotent(rest[1..1 + a]);
        Some(Trim(rest[1..1 + a]))
      else None
    else if AllSpace(rest) then Some("")
    else None
  }

  /** A heading line, trimmed, starts with `##` and white space, and its preview is trimmed. */
  lemma {:induction false} HeadingShapeOf(line: string)
    requires HeadingMatch(line).Some?
    ensures var t := Trim(line); |t| > 2 && t[..2] == "##" && IsSpace(t[2])
    ensures var p := HeadingMatch(line).value.preview; Trim(p) == p
  {
  }

  /** `## key` is a heading with the key and no preview. */
  lemma {:induction false} HeadingWithoutPreview(key: string)
    requires IsKey(key)
    ensures HeadingMatch("## " + key) == Some(Heading(key, ""))
  {
    assert key + "" == key;
    assert "## " + key + "" == "## " + key;
    HeadingShape(key, "");
    assert MatchRest("") == Some("");
  }

  /** `## key@preview` is a heading with the key and the preview, for a trimmed one-line preview. */
  lemma {:induction false} HeadingWithPreview(key: string, preview: string)
    requires IsKey(key) && preview != []
    requires !IsSpace(preview[0]) && !IsSpace(preview[|preview| - 1])
    requires forall i :: 0 <= i < |preview| ==> !IsLineTerminator(preview[i])
    ensures HeadingMatch("## " + key + "@" + preview) == Some(Heading(key, preview))
  {
    var rest := "@" + preview;
    assert rest[0] == '@' && rest[|rest| - 1] == preview[|preview| - 1];
    assert "## " + key + "@" + preview == "## " + key + rest;
    PreviewRest(preview);
    HeadingShape(key, rest);
  }

  lemma {:induction false} PreviewRest(preview: string)
    requires preview != []
    requires !IsSpace(preview[0]) && !IsSpace(preview[|preview| - 1])
    requires forall i :: 0 <= i < |preview| ==> !IsLineTerminator(preview[i])
    ensures MatchRest("@" + preview) == Some(preview)
  {
    var rest := "@" + preview;
    assert rest[1..] == preview;
    assert LineRun(preview) == |preview|;
    assert rest[1 + |preview|..] == [];
    assert rest[1..1 + |preview|] == preview;
    TrimNoOuterSpace(preview);
  }

  /** A line `## key` followed by something that neither continues the key nor starts with white space. */
  lemma {:induction false} HeadingShape(key: string, rest: string)
    requires IsKey(key)
    requires rest == [] || (!IsAsciiLetter(rest[0]) && !IsSpace(rest[|rest| - 1]))
    ensures HeadingMatch("## " + key + rest) == MatchKey(key + rest)
    ensures MatchKey(key + rest) == if MatchRest(rest).Some? then Some(Heading(key, MatchRest(rest).value)) else None
  {
    var line := "## " + key + rest;
    var u := key + rest;
    assert line == "## " + u;
    HeadingPrefix(line, u);
    if rest == [] {
      assert LetterRun(u) == |key|;
    } else {
      LetterRunPrefix(u, |key|);
    }
    assert u[..|key|] == key && u[|key|..] == rest;
  }

  /** `## ` followed by text that does not start or end with white space is matched by its text. */
  lemma {:induction false} HeadingPrefix(line: string, u: string)
    requires u != [] && !IsSpace(u[0]) && !IsSpace(u[|u| - 1])
    requires line == "## " + u
    ensures HeadingMatch(line) == MatchKey(u)
  {
    TrimNoOuterSpace(line);
    assert line[..2] == "##";
    assert line[2..][1..] == u;
    assert LeadingSpace(line[2..]) == 1;
    assert line[3..] == u;
  }

  /** The letter run of `s` ends where a letter run is followed by something else. */
  lemma {:induction false} LetterRunPrefix(s: string, n: nat)
    requires n < |s| && !IsAsciiLetter(s[n])
    requires forall i :: 0 <= i < n ==> IsAsciiLetter(s[i])
    ensures LetterRun(s) == n
  {
  }

  /** A section of the file: the heading's key and preview and the lines up to the next heading. */
  datatype Section = Section(key: string, preview: string, body: seq<string>)

  /** A line of the file: a snippet heading, or any other line. */
  datatype LineKind = HeadingLine(heading: Heading) | TextLine(text: string)

  /** What a heading matcher (in the parser, `HeadingMatch`) makes of a line. */
  function Classify(matcher: string -> Option<Heading>, line: string): LineKind
  {
    match matcher(line)
    case Some(h) => HeadingLine(h)
    case None => TextLine(line)
  }

  function Classified(matcher: string -> Option<Heading>, lines: seq<string>): (r: seq<LineKind>)
    ensures |r| == |lines|
    ensures forall i :: 0 <= i < |lines| ==> r[i] == Classify(matcher, lines[i])
  {
    seq(|lines|, i requires 0 <= i < |lines| => Classify(matcher, lines[i]))
  }

  /**
   * The sections of the first `n` lines: a heading opens a new section, any
   * other line goes to the open section, and lines before the first heading
   * go nowhere.
   */
  function GroupUpTo(kinds: seq<LineKind>, n: nat): seq<Section>
    requires n <= |kinds|
  {
    if n == 0 then [] else NextSections(GroupUpTo(kinds, n - 1), kinds[n - 1])
  }

  /** One more line. */
  function NextSections(prev: seq<Section>, kind: LineKind): seq<Section>
  {
    match kind
    case HeadingLine(h) => prev + [Section(h.key, h.preview, [])]
    case TextLine(line) =>
      if prev == [] then []
      else
        var last := prev[|prev| - 1];
        prev[..|prev| - 1] + [last.(body := last.body + [line])]
  }

  function Sections(lines: seq<string>): seq<Section>
  {
    GroupUpTo(Classified(HeadingMatch, lines), |lines|)
  }

  /** Drops the blank lines `lines` starts with. */
  function DropLeadingBlank(lines: seq<string>): seq<string>
  {
    if lines != [] && IsBlank(lines[0]) then DropLeadingBlank(lines[1..]) else lines
  }

  /** Drops the blank lines `lines` ends with. */
  function DropTrailingBlank(lines: seq<string>): seq<string>
  {
    if lines != [] && IsBlank(lines[|lines| - 1]) then DropTrailingBlank(lines[..|lines| - 1]) else lines
  }

  /** The lines a snippet keeps: all of them but the blank ones at either end. */
  function KeptLines(lines: seq<string>): seq<string>
  {
    DropTrailingBlank(DropLeadingBlank(lines))
  }

  /** What is left starts a suffix of the lines with a non-blank one, after blank lines only. */
  lemma {:induction false} DropLeadingShape(lines: seq<string>)
    ensures var d := DropLeadingBlank(lines);
            && |d| <= |lines| && d == lines[|lines| - |d|..]
            && (d == [] || !IsBlank(d[0]))
            && forall i :: 0 <= i < |lines| - |d| ==> IsBlank(lines[i])
  {
    if lines != [] && IsBlank(lines[0]) {
      var p := lines[1..];
      DropLeadingShape(p);
      var d := DropLeadingBlank(p);
      assert DropLeadingBlank(lines) == d;
      assert d == lines[|lines| - |d|..] by {
        assert p[|p| - |d|..] == lines[|lines| - |d|..];
      }
      forall i | 0 <= i < |lines| - |d| ensures IsBlank(lines[i]) {
        if 0 < i {
          assert p[i - 1] == lines[i];
        }
      }
    }
  }

  /** What is left ends a prefix of the lines with a non-blank one, before blank lines only. */
  lemma {:induction false} DropTrailingShape(lines: seq<string>)
    ensures var d := DropTrailingBlank(lines);
            && |d| <= |lines| && d == lines[..|d|]
            && (d == [] || !IsBlank(d[|d| - 1]))
            && forall i :: |d| <= i < |lines| ==> IsBlank(lines[i])
  {
    if lines != [] && IsBlank(lines[|lines| - 1]) {
      var p := lines[..|lines| - 1];
      DropTrailingShape(p);
      var d := DropTrailingBlank(p);
      assert DropTrailingBlank(lines) == d;
      assert d == lines[..|d|] by {
        assert p[..|d|] == lines[..|d|];
      }
      forall i | |d| <= i < |lines| ensures IsBlank(lines[i]) {
        if i < |p| {
          assert p[i] == lines[i];
        }
      }
    }
  }

  /** Nothing is kept exactly when every line is blank. */
  lemma {:induction false} KeptLinesEmpty(lines: seq<string>)
    ensures KeptLines(lines) == [] <==> forall i :: 0 <= i < |lines| ==> IsBlank(lines[i])
  {
    var d := DropLeadingBlank(lines);
    DropLeadingShape(lines);
    DropTrailingShape(d);
  }

  /** What is kept starts and ends with a non-blank line. */
  lemma {:induction false} KeptLinesEnds(lines: seq<string>)
    ensures var r := KeptLines(lines);
            r != [] ==> !IsBlank(r[0]) && !IsBlank(r[|r| - 1])
  {
    var d := DropLeadingBlank(lines);
    DropLeadingShape(lines);
    var r := DropTrailingBlank(d);
    DropTrailingShape(d);
    if r != [] {
      assert r[0] == d[0];
    }
  }

  /** What is kept is the lines from index `s` on, with only blank lines left out before and after them. */
  lemma {:induction false} KeptLinesSlice(lines: seq<string>)
    ensures var r := KeptLines(lines);
            var s := |lines| - |DropLeadingBlank(lines)|;
            && 0 <= s <= |lines| - |r| && r == lines[s..s + |r|]
            && (forall i :: 0 <= i < s ==> IsBlank(lines[i]))
            && (forall i :: s + |r| <= i < |lines| ==> IsBlank(lines[i]))
  {
    var d := DropLeadingBlank(lines);
    DropLeadingShape(lines);
    var r := DropTrailingBlank(d);
    DropTrailingShape(d);
    var s := |lines| - |d|;
    assert r == lines[s..s + |r|];
    forall i | s + |r| <= i < |lines| ensures IsBlank(lines[i]) {
      var j := i - s;
      assert |r| <= j < |d| && IsBlank(d[j]);
      assert d[j] == lines[s..][j];
    }
  }

  /** Trimming the blank lines again changes nothing. */
  lemma {:induction false} KeptLinesIdempotent(lines: seq<string>)
    ensures KeptLines(KeptLines(lines)) == KeptLines(lines)
  {
    var r := KeptLines(lines);
    KeptLinesEnds(lines);
    assert DropLeadingBlank(r) == r;
    assert DropTrailingBlank(r) == r;
  }

  /** `normalizeContent`: `start` and `end` move past the blank lines at either end, and the rest is joined. */
  method NormalizeContent(lines: seq<string>) returns (r: string)
    ensures r == Join(KeptLines(lines), "\n")
  {
    var start: nat := 0;
    var end: nat := |lines|;
    while start < end && IsBlank(lines[start])
      invariant end == |lines|
      invariant LeadingTrimmed(lines, start)
    {
      DropLeadingStep(lines, start);
      start := start + 1;
    }
    DropLeadingStop(lines, start);
    while end > start && IsBlank(lines[end - 1])
      invariant TrailingTrimmed(lines, start, end)
    {
      DropTrailingStep(lines, start, end);
      end := end - 1;
    }
    DropTrailingStop(lines, start, end);
    r := Join(lines[start..end], "\n");
  }

  /** Loop invariant of the first scan: the lines before `start` are blank. */
  ghost predicate LeadingTrimmed(lines: seq<string>, start: nat)
  {
    start <= |lines| && DropLeadingBlank(lines[start..]) == DropLeadingBlank(lines)
  }

  /** Loop invariant of the second scan: `lines[start..end]` still trims to the kept lines. */
  ghost predicate TrailingTrimmed(lines: seq<string>, start: nat, end: nat)
  {
    start <= end <= |lines| && DropTrailingBlank(lines[start..end]) == KeptLines(lines)
  }

  lemma {:induction false} DropLeadingStep(lines: seq<string>, start: nat)
    requires LeadingTrimmed(lines, start) && start < |lines| && IsBlank(lines[start])
    ensures LeadingTrimmed(lines, start + 1)
  {
    assert lines[start..][1..] == lines[start + 1..];
  }

  lemma {:induction false} DropLeadingStop(lines: seq<string>, start: nat)
    requires LeadingTrimmed(lines, start) && (start == |lines| || !IsBlank(lines[start]))
    ensures TrailingTrimmed(lines, start, |lines|)
  {
    assert lines[start..|lines|] == lines[start..];
  }

  lemma {:induction false} DropTrailingStep(lines: seq<string>, start: nat, end: nat)
    requires TrailingTrimmed(lines, start, end) && start < end && IsBlank(lines[end - 1])
    ensures TrailingTrimmed(lines, start, end - 1)
  {
    var xs := lines[start..end];
    assert xs[|xs| - 1] == lines[end - 1];
    assert xs[..|xs| - 1] == lines[start..end - 1];
  }

  lemma {:induction false} DropTrailingStop(lines: seq<string>, start: nat, end: nat)
    requires TrailingTrimmed(lines, start, end) && (start == end || !IsBlank(lines[end - 1]))
    ensures start <= end <= |lines| && lines[start..end] == KeptLines(lines)
  {
    var xs := lines[start..end];
    assert xs != [] ==> xs[|xs| - 1] == lines[end - 1];
  }

  /** The normalized content is empty exactly when every line is blank. */
  lemma {:induction false} NormalizedEmptyIffBlank(lines: seq<string>)
    ensures Join(KeptLines(lines), "\n") == [] <==> forall i :: 0 <= i < |lines| ==> IsBlank(lines[i])
  {
    KeptLinesEmpty(lines);
    KeptLinesEnds(lines);
    var r := KeptLines(lines);
    if r != [] {
      assert !IsBlank(r[0]);
      assert r[0] != [];
      JoinCons(r[0], r[1..], "\n");
      assert r == [r[0]] + r[1..];
    }
  }

  /** `text.split(marker).join("")`: every occurrence of `m`, found left to right without overlap, removed. */
  function RemoveAll(s: string, m: string): (r: string)
    requires |m| > 0
    ensures |r| <= |s|
    decreases |s|
  {
    if |s| < |m| then s
    else if s[..|m|] == m then RemoveAll(s[|m|..], m)
    else [s[0]] + RemoveAll(s[1..], m)
  }

  /** An occurrence in the tail of `s` is an occurrence in `s` one place later. */
  lemma {:induction false} IsAtTail(s: string, m: string, i: nat)
    requires |s| > 0
    ensures IsAt(s[1..], m, i) <==> IsAt(s, m, i + 1)
  {
    if i + |m| <= |s| - 1 {
      assert s[1..][i..i + |m|] == s[i + 1..i + 1 + |m|];
    }
  }

  /** Text without the marker is left as it is. */
  lemma {:induction false} RemoveAllAbsent(s: string, m: string)
    requires |m| > 0 && !Contains(s, m)
    ensures RemoveAll(s, m) == s
    decreases |s|
  {
    if |s| >= |m| {
      assert !IsAt(s, m, 0);
      assert !Contains(s[1..], m) by {
        forall i | 0 <= i <= |s| - 1 ensures !IsAt(s[1..], m, i) {
          IsAtTail(s, m, i);
          assert !IsAt(s, m, i + 1);
        }
      }
      RemoveAllAbsent(s[1..], m);
      assert s == [s[0]] + s[1..];
    }
  }

  /** Removing the markers of `a + m + b`, where the first one starts after `a`, keeps `a` and goes on after that marker. */
  lemma {:induction false} RemoveAllJoin(a: string, m: string, b: string)
    requires |m| > 0
    requires forall i :: 0 <= i < |a| ==> !IsAt(a + m + b, m, i)
    ensures RemoveAll(a + m + b, m) == a + RemoveAll(b, m)
    decreases |a|
  {
    var s := a + m + b;
    if a == [] {
      assert s[..|m|] == m && s[|m|..] == b;
      assert RemoveAll(s, m) == RemoveAll(b, m);
      assert a + RemoveAll(b, m) == RemoveAll(b, m);
    } else {
      assert !IsAt(s, m, 0);
      assert s[..|m|] != m;
      assert RemoveAll(s, m) == [s[0]] + RemoveAll(s[1..], m);
      assert s[1..] == a[1..] + m + b;
      forall i | 0 <= i < |a| - 1 ensures !IsAt(a[1..] + m + b, m, i) {
        IsAtTail(s, m, i);
        assert !IsAt(s, m, i + 1);
      }
      RemoveAllJoin(a[1..], m, b);
      assert s[0] == a[0] && a == [a[0]] + a[1..];
    }
  }

  /** The marker-free text up to the first marker survives removal, and the rest is removed from after it. */
  lemma {:induction false} RemoveAllFirst(s: string, m: string)
    requires |m| > 0 && IndexOfFrom(s, m, 0) >= 0
    ensures var i := IndexOfFrom(s, m, 0);
            RemoveAll(s, m) == s[..i] + RemoveAll(s[i + |m|..], m)
  {
    var i := IndexOfFrom(s, m, 0);
    assert s == s[..i] + m + s[i + |m|..];
    RemoveAllJoin(s[..i], m, s[i + |m|..]);
  }

  /** White space occurs only as single spaces. */
  predicate Collapsed(s: string)
  {
    forall i :: 0 <= i < |s| && IsSpace(s[i]) ==> s[i] == ' ' && (i + 1 == |s| || !IsSpace(s[i + 1]))
  }

  /** The characters of `s` that are not white space, in order. */
  function Visible(s: string): string
  {
    if s == [] then [] else (if IsSpace(s[0]) then [] else [s[0]]) + Visible(s[1..])
  }

  /** `.replace(/\s+/g, " ")`: every white-space run becomes one space. */
  function CollapseSpace(s: string): (r: string)
    ensures |r| <= |s| && (r == [] <==> s == [])
    ensures r != [] ==> (IsSpace(r[0]) <==> IsSpace(s[0]))
    ensures Collapsed(r)
    decreases |s|
  {
    if s == [] then []
    else if IsSpace(s[0]) then [' '] + CollapseSpace(s[LeadingSpace(s)..])
    else [s[0]] + CollapseSpace(s[1..])
  }

  /** `Visible` of a concatenation. */
  lemma {:induction false} VisibleAppend(a: string, b: string)
    ensures Visible(a + b) == Visible(a) + Visible(b)
    decreases |a|
  {
    if a == [] {
      assert a + b == b;
    } else {
      assert (a + b)[1..] == a[1..] + b;
      VisibleAppend(a[1..], b);
    }
  }

  /** White space contributes nothing to `Visible`. */
  lemma {:induction false} VisibleOfSpace(s: string)
    requires AllSpace(s)
    ensures Visible(s) == []
    decreases |s|
  {
    if s != [] {
      VisibleOfSpace(s[1..]);
    }
  }

  /** Collapsing white space keeps every other character, in order. */
  lemma {:induction false} CollapseKeepsVisible(s: string)
    ensures Visible(CollapseSpace(s)) == Visible(s)
    decreases |s|
  {
    if s != [] {
      if IsSpace(s[0]) {
        var n := LeadingSpace(s);
        CollapseKeepsVisible(s[n..]);
        assert s == s[..n] + s[n..];
        VisibleAppend(s[..n], s[n..]);
        VisibleOfSpace(s[..n]);
        VisibleAppend([' '], CollapseSpace(s[n..]));
      } else {
        CollapseKeepsVisible(s[1..]);
        VisibleAppend([s[0]], CollapseSpace(s[1..]));
      }
    }
  }

  /** A collapsed string is its own collapse. */
  lemma {:induction false} CollapseFixed(s: string)
    requires Collapsed(s)
    ensures CollapseSpace(s) == s
    decreases |s|
  {
    if s != [] {
      if IsSpace(s[0]) {
        assert LeadingSpace(s) == 1 by {
          assert |s| == 1 || !IsSpace(s[1]);
          assert LeadingSpace(s) == 1 + LeadingSpace(s[1..]);
        }
      }
      assert Collapsed(s[1..]) by {
        forall i | 0 <= i < |s| - 1 && IsSpace(s[1..][i])
          ensures s[1..][i] == ' ' && (i + 1 == |s| - 1 || !IsSpace(s[1..][i + 1]))
        {
          assert s[1..][i] == s[i + 1];
        }
      }
      CollapseFixed(s[1..]);
      assert s == [s[0]] + s[1..];
    }
  }

  /** Trimming keeps a string collapsed and keeps its visible characters. */
  lemma {:induction false} TrimCollapsed(s: string)
    requires Collapsed(s)
    ensures Collapsed(Trim(s)) && Visible(Trim(s)) == Visible(s)
  {
    var l := LeadingSpace(s);
    TrimSlice(s);
    CollapsedSlice(s, l, l + |Trim(s)|);
    TrimVisible(s);
  }

  /** A piece of a collapsed string is collapsed. */
  lemma {:induction false} CollapsedSlice(s: string, lo: nat, hi: nat)
    requires Collapsed(s) && lo <= hi <= |s|
    ensures Collapsed(s[lo..hi])
  {
    var r := s[lo..hi];
    forall i | 0 <= i < |r| && IsSpace(r[i]) ensures r[i] == ' ' && (i + 1 == |r| || !IsSpace(r[i + 1])) {
      assert r[i] == s[lo + i];
      if i + 1 < |r| {
        assert r[i + 1] == s[lo + i + 1];
      }
    }
  }

  lemma {:induction false} TrimSlice(s: string)
    ensures var l := LeadingSpace(s);
            l + |Trim(s)| <= |s| && Trim(s) == s[l..l + |Trim(s)|]
  {
    var l := LeadingSpace(s);
    var t := s[l..];
    var e := TrailingSpace(t);
    assert Trim(s) == t[..|t| - e];
  }

  /** Trimming removes only white space. */
  lemma {:induction false} TrimVisible(s: string)
    ensures Visible(Trim(s)) == Visible(s)
  {
    var l := LeadingSpace(s);
    var t := s[l..];
    assert Trim(s) == t[..|t| - TrailingSpace(t)];
    VisibleAfterLeading(s);
    VisibleBeforeTrailing(t);
  }

  lemma {:induction false} VisibleAfterLeading(s: string)
    ensures Visible(s[LeadingSpace(s)..]) == Visible(s)
  {
    var l := LeadingSpace(s);
    assert s == s[..l] + s[l..];
    VisibleAppend(s[..l], s[l..]);
    VisibleOfSpace(s[..l]);
  }

  lemma {:induction false} VisibleBeforeTrailing(t: string)
    ensures Visible(t[..|t| - TrailingSpace(t)]) == Visible(t)
  {
    var e := TrailingSpace(t);
    var r := t[..|t| - e];
    assert t == r + t[|t| - e..];
    VisibleAppend(r, t[|t| - e..]);
    VisibleOfSpace(t[|t| - e..]);
  }

  /**
   * `buildPreviewFromContent`: the content without cursor markers, white
   * space collapsed, trimmed. It keeps the visible characters and has no
   * white space at either end or twice in a row.
   */
  function BuildPreview(content: string): (r: string)
    ensures Trim(r) == r
    ensures Collapsed(r)
    ensures Visible(r) == Visible(RemoveAll(content, CursorMarker))
  {
    var stripped := RemoveAll(content, CursorMarker);
    var c := CollapseSpace(stripped);
    CollapseKeepsVisible(stripped);
    TrimCollapsed(c);
    TrimIdempotent(c);
    Trim(c)
  }

  /**
   * `flush` of a finished section: a snippet numbered `order` when the
   * trimmed key is a letter run and the normalized content is not empty;
   * the preview is the explicit one without cursor markers, or else one
   * built from the content.
   */
  function Flushed(s: Section, order: nat): (r: Option<SnippetItem>)
    ensures r.Some? ==> IsKey(r.value.key) && r.value.content != [] && r.value.order == order
  {
    var key := Trim(s.key);
    var preview := Trim(RemoveAll(s.preview, CursorMarker));
    if !IsKey(key) then None
    else
      var content := Join(KeptLines(s.body), "\n");
      if content == [] then None
      else Some(SnippetItem(key, content, if preview != [] then preview else BuildPreview(content), order))
  }

  /** The items `sections` give in turn, each flushed with the number of items before it. */
  function Collect<T>(flush: (Section, nat) -> Option<T>, sections: seq<Section>): seq<T>
  {
    if sections == [] then []
    else CollectNext(flush, Collect(flush, sections[..|sections| - 1]), sections[|sections| - 1])
  }

  /** The items so far, with the one `s` gives appended. */
  function CollectNext<T>(flush: (Section, nat) -> Option<T>, items: seq<T>, s: Section): seq<T>
  {
    match flush(s, |items|)
    case Some(item) => items + [item]
    case None => items
  }

  /** The snippets so far, with the one `s` gives appended. */
  function AppendFlushed(items: seq<SnippetItem>, s: Section): seq<SnippetItem>
  {
    CollectNext(Flushed, items, s)
  }

  /** The snippets of a list of sections. */
  function Items(sections: seq<Section>): seq<SnippetItem>
  {
    Collect(Flushed, sections)
  }

  /** The snippets are numbered from 0 in file order, each with a key and some content, at most one per section. */
  lemma {:induction false} ItemsShape(sections: seq<Section>)
    ensures var r := Items(sections);
            && |r| <= |sections|
            && forall i :: 0 <= i < |r| ==> r[i].order == i && IsKey(r[i].key) && r[i].content != []
  {
    if sections != [] {
      ItemsShape(sections[..|sections| - 1]);
    }
  }

  /** A section with an empty key gives nothing. */
  ghost predicate NoEmptyKey<T>(flush: (Section, nat) -> Option<T>)
  {
    forall preview, body, n :: flush(Section("", preview, body), n).None?
  }

  lemma {:induction false} FlushedNoEmptyKey()
    ensures NoEmptyKey(Flushed)
  {
    forall preview, body, n ensures Flushed(Section("", preview, body), n).None? {
      assert |Trim("")| == 0;
    }
  }

  /** The parser's state after some lines: the open section is the last one, and the others are flushed. */
  ghost predicate Pending<T>(flush: (Section, nat) -> Option<T>, sections: seq<Section>, key: string,
                             preview: string, body: seq<string>, done: seq<T>)
  {
    if sections == [] then key == "" && done == []
    else key != "" && sections[|sections| - 1] == Section(key, preview, body)
         && done == Collect(flush, sections[..|sections| - 1])
  }

  /** The `flush` closure: appends the open section's snippet, if it gives one, and advances `order`. */
  method Flush(key: string, preview: string, body: seq<string>, snippets: seq<SnippetItem>, order: nat)
    returns (snippets': seq<SnippetItem>, order': nat)
    requires order == |snippets|
    ensures snippets' == AppendFlushed(snippets, Section(key, preview, body))
    ensures order' == |snippets'|
  {
    snippets', order' := snippets, order;
    if key == "" {
      assert |Trim(key)| == 0;
      return;
    }
    var k := Trim(key);
    var p := Trim(RemoveAll(preview, CursorMarker));
    if !IsKey(k) {
      return;
    }
    var normalized := NormalizeContent(body);
    if normalized == [] {
      return;
    }
    var item := SnippetItem(k, normalized, if p != [] then p else BuildPreview(normalized), order);
    snippets' := snippets + [item];
    order' := order + 1;
  }

  /**
   * `parseSnippets`: the file's lines in turn; a heading flushes the open
   * section and opens its own, any other line joins the open section, if
   * there is one; the last section is flushed at the end.
   */
  method ParseSnippets(content: string) returns (snippets: seq<SnippetItem>)
    ensures snippets == Items(Sections(Split(content, '\n')))
  {
    snippets := ParseLines(Split(content, '\n'));
  }

  /** The line loop of `parseSnippets`, after `content.split("\n")`. */
  method ParseLines(lines: seq<string>) returns (snippets: seq<SnippetItem>)
    ensures snippets == Items(Sections(lines))
  {
    snippets := [];
    var currentKey := "";
    var currentPreview := "";
    var currentContentLines: seq<string> := [];
    var order := 0;
    for i := 0 to |lines|
      invariant Pending(Flushed, GroupUpTo(Classified(HeadingMatch, lines), i), currentKey, currentPreview, currentContentLines, snippets)
      invariant order == |snippets|
    {
      currentKey, currentPreview, currentContentLines, snippets, order :=
        ParseLine(lines, i, currentKey, currentPreview, currentContentLines, snippets, order);
    }
    FlushedNoEmptyKey();
    PendingAtEnd(Flushed, Sections(lines), currentKey, currentPreview, currentContentLines, snippets);
    snippets, order := Flush(currentKey, currentPreview, currentContentLines, snippets, order);
  }

  /** The body of the line loop of `parseSnippets`, for line `i`. */
  method ParseLine(lines: seq<string>, i: nat, currentKey: string, currentPreview: string,
                   currentContentLines: seq<string>, snippets: seq<SnippetItem>, order: nat)
    returns (key: string, preview: string, body: seq<string>, snippets': seq<SnippetItem>, order': nat)
    requires i < |lines| && order == |snippets|
    requires Pending(Flushed, GroupUpTo(Classified(HeadingMatch, lines), i), currentKey, currentPreview, currentContentLines, snippets)
    ensures Pending(Flushed, GroupUpTo(Classified(HeadingMatch, lines), i + 1), key, preview, body, snippets') && order' == |snippets'|
  {
    ghost var kinds := Classified(HeadingMatch, lines);
    var line := lines[i];
    var headingMatch := HeadingMatch(line);
    if headingMatch.Some? {
      snippets', order' := Flush(currentKey, currentPreview, currentContentLines, snippets, order);
      FlushedNoEmptyKey();
      PendingAfterHeading(Flushed, kinds, i, currentKey, currentPreview, currentContentLines, snippets);
      key := headingMatch.value.key;
      preview := headingMatch.value.preview;
      body := [];
    } else {
      PendingAfterLine(Flushed, kinds, i, currentKey, currentPreview, currentContentLines, snippets);
      key, preview, body, snippets', order' := currentKey, currentPreview, currentContentLines, snippets, order;
      if currentKey != "" {
        body := currentContentLines + [line];
      }
    }
  }

  lemma {:induction false} PendingAfterHeading<T>(flush: (Section, nat) -> Option<T>, kinds: seq<LineKind>, i: nat, key: string,
                               preview: string, body: seq<string>, done: seq<T>)
    requires NoEmptyKey(flush)
    requires i < |kinds| && kinds[i].HeadingLine? && kinds[i].heading.key != ""
    requires Pending(flush, GroupUpTo(kinds, i), key, preview, body, done)
    ensures var h := kinds[i].heading;
            Pending(flush, GroupUpTo(kinds, i + 1), h.key, h.preview, [],
                    CollectNext(flush, done, Section(key, preview, body)))
  {
    var before := GroupUpTo(kinds, i);
    var after := GroupUpTo(kinds, i + 1);
    assert after[..|after| - 1] == before;
    PendingAtEnd(flush, before, key, preview, body, done);
  }

  lemma {:induction false} PendingAfterLine<T>(flush: (Section, nat) -> Option<T>, kinds: seq<LineKind>, i: nat, key: string,
                            preview: string, body: seq<string>, done: seq<T>)
    requires i < |kinds| && kinds[i].TextLine?
    requires Pending(flush, GroupUpTo(kinds, i), key, preview, body, done)
    ensures Pending(flush, GroupUpTo(kinds, i + 1), key, preview,
                    if key != "" then body + [kinds[i].text] else body, done)
  {
    var before := GroupUpTo(kinds, i);
    var after := GroupUpTo(kinds, i + 1);
    if before != [] {
      assert after[..|after| - 1] == before[..|before| - 1];
    }
  }

  /** Flushing the open section completes the items of all sections. */
  lemma {:induction false} PendingAtEnd<T>(flush: (Section, nat) -> Option<T>, sections: seq<Section>, key: string, preview: string,
                        body: seq<string>, done: seq<T>)
    requires NoEmptyKey(flush)
    requires Pending(flush, sections, key, preview, body, done)
    ensures CollectNext(flush, done, Section(key, preview, body)) == Collect(flush, sections)
  {
    if sections == [] {
      assert flush(Section(key, preview, body), |done|).None?;
    }
  }

  /** No heading among the first `n` lines: no section has started. */
  lemma {:induction false} NoHeadingNoSections(kinds: seq<LineKind>, n: nat)
    requires n <= |kinds|
    requires forall i :: 0 <= i < n ==> kinds[i].TextLine?
    ensures GroupUpTo(kinds, n) == []
  {
    if n > 0 {
      NoHeadingNoSections(kinds, n - 1);
    }
  }

  /** The sections of the first `k` lines depend on those lines only. */
  lemma {:induction false} GroupOfPrefix(xs: seq<LineKind>, ys: seq<LineKind>, k: nat)
    requires k <= |xs| && k <= |ys| && xs[..k] == ys[..k]
    ensures GroupUpTo(xs, k) == GroupUpTo(ys, k)
  {
    if k > 0 {
      assert xs[..k - 1] == ys[..k - 1];
      assert xs[k - 1] == xs[..k][k - 1];
      GroupOfPrefix(xs, ys, k - 1);
    }
  }

  /** Once the lines before `kinds` have opened no section, they change nothing. */
  lemma {:induction false} GroupAfterPrefix(pre: seq<LineKind>, kinds: seq<LineKind>, n: nat)
    requires n <= |kinds| && GroupUpTo(pre + kinds, |pre|) == []
    ensures GroupUpTo(pre + kinds, |pre| + n) == GroupUpTo(kinds, n)
  {
    if n > 0 {
      GroupAfterPrefix(pre, kinds, n - 1);
      assert (pre + kinds)[|pre| + n - 1] == kinds[n - 1];
    }
  }

  lemma {:induction false} ClassifiedAppend(matcher: string -> Option<Heading>, pre: seq<string>, lines: seq<string>)
    ensures Classified(matcher, pre + lines) == Classified(matcher, pre) + Classified(matcher, lines)
  {
    var l := Classified(matcher, pre + lines);
    var r := Classified(matcher, pre) + Classified(matcher, lines);
    forall i | 0 <= i < |l| ensures l[i] == r[i] {
      if i < |pre| {
        assert (pre + lines)[i] == pre[i];
      } else {
        assert (pre + lines)[i] == lines[i - |pre|];
      }
    }
  }

  /** Lines before the first heading are ignored, whatever the heading matcher. */
  lemma {:induction false} LeadingLinesIgnoredBy(matcher: string -> Option<Heading>, pre: seq<string>, lines: seq<string>)
    requires forall i :: 0 <= i < |pre| ==> matcher(pre[i]).None?
    ensures GroupUpTo(Classified(matcher, pre + lines), |pre + lines|) == GroupUpTo(Classified(matcher, lines), |lines|)
  {
    var k := Classified(matcher, lines);
    ClassifiedAppend(matcher, pre, lines);
    PrefixWithoutSections(matcher, pre, k);
    GroupOfAppend(Classified(matcher, pre + lines), Classified(matcher, pre), k);
  }

  /** A sequence of kinds that starts with a prefix making no section groups like its rest. */
  lemma {:induction false} GroupOfAppend(kinds: seq<LineKind>, p: seq<LineKind>, k: seq<LineKind>)
    requires kinds == p + k && GroupUpTo(p + k, |p|) == []
    ensures GroupUpTo(kinds, |kinds|) == GroupUpTo(k, |k|)
  {
    GroupAfterPrefix(p, k, |k|);
  }

  /** Text lines in front make no section of their own. */
  lemma {:induction false} PrefixWithoutSections(matcher: string -> Option<Heading>, pre: seq<string>, k: seq<LineKind>)
    requires forall i :: 0 <= i < |pre| ==> matcher(pre[i]).None?
    ensures GroupUpTo(Classified(matcher, pre) + k, |pre|) == []
  {
    var p := Classified(matcher, pre);
    forall i | 0 <= i < |p| ensures p[i].TextLine? {
      assert p[i] == Classify(matcher, pre[i]);
    }
    NoHeadingNoSections(p, |p|);
    assert (p + k)[..|p|] == p[..|p|];
    GroupOfPrefix(p + k, p, |p|);
  }

  /** Lines before the first heading are ignored. */
  lemma {:induction false} LeadingLinesIgnored(pre: seq<string>, lines: seq<string>)
    requires forall i :: 0 <= i < |pre| ==> HeadingMatch(pre[i]).None?
    ensures Sections(pre + lines) == Sections(lines)
  {
    LeadingLinesIgnoredBy(HeadingMatch, pre, lines);
  }

  /** The kinds of lines none of which is a heading. */
  function TextLines(lines: seq<string>): (r: seq<LineKind>)
    ensures |r| == |lines| && forall i :: 0 <= i < |lines| ==> r[i] == TextLine(lines[i])
  {
    seq(|lines|, i requires 0 <= i < |lines| => TextLine(lines[i]))
  }

  lemma {:induction false} OneSectionUpTo(h: Heading, body: seq<string>, n: nat)
    requires n <= |body|
    ensures GroupUpTo([HeadingLine(h)] + TextLines(body), n + 1) == [Section(h.key, h.preview, body[..n])]
  {
    var kinds := [HeadingLine(h)] + TextLines(body);
    if n > 0 {
      OneSectionUpTo(h, body, n - 1);
      assert kinds[n] == TextLine(body[n - 1]);
      SliceSnoc(body, 0, n);
    } else {
      assert GroupUpTo(kinds, 1) == NextSections([], kinds[0]);
      assert body[..0] == [];
    }
  }

  lemma {:induction false} SliceSnoc<T>(xs: seq<T>, lo: nat, hi: nat)
    requires lo < hi <= |xs|
    ensures xs[lo..hi - 1] + [xs[hi - 1]] == xs[lo..hi]
  {
  }

  /**
   * A file made of `## key` and lines that are not headings, not all blank,
   * gives one snippet: that key, the lines with the blank ones at either end
   * removed, and a preview built from them.
   */
  lemma {:induction false} OneSnippet(key: string, body: seq<string>)
    requires IsKey(key)
    requires forall i :: 0 <= i < |body| ==> HeadingMatch(body[i]).None?
    requires exists i :: 0 <= i < |body| && !IsBlank(body[i])
    ensures var content := Join(KeptLines(body), "\n");
            Items(Sections(["## " + key] + body)) == [SnippetItem(key, content, BuildPreview(content), 0)]
  {
    OneSnippetSections(key, body);
    FlushedWithoutPreview(key, body);
    CollectSingle(Flushed, Section(key, "", body));
  }

  lemma {:induction false} CollectSingle<T>(flush: (Section, nat) -> Option<T>, s: Section)
    ensures Collect(flush, [s]) == CollectNext(flush, [], s)
  {
    assert [s][..0] == [];
  }

  lemma {:induction false} OneSnippetSections(key: string, body: seq<string>)
    requires IsKey(key)
    requires forall i :: 0 <= i < |body| ==> HeadingMatch(body[i]).None?
    ensures Sections(["## " + key] + body) == [Section(key, "", body)]
  {
    HeadingWithoutPreview(key);
    OneSectionBy(HeadingMatch, "## " + key, Heading(key, ""), body);
  }

  /** A heading line followed by lines that are not headings makes one section. */
  lemma {:induction false} OneSectionBy(matcher: string -> Option<Heading>, head: string, h: Heading, body: seq<string>)
    requires matcher(head) == Some(h)
    requires forall i :: 0 <= i < |body| ==> matcher(body[i]).None?
    ensures GroupUpTo(Classified(matcher, [head] + body), |[head] + body|) == [Section(h.key, h.preview, body)]
  {
    var lines := [head] + body;
    var kinds := Classified(matcher, lines);
    assert kinds == [HeadingLine(h)] + TextLines(body) by {
      forall i | 1 <= i < |lines| ensures kinds[i] == TextLine(body[i - 1]) {
        assert lines[i] == body[i - 1];
      }
    }
    OneSectionUpTo(h, body, |body|);
    assert body[..|body|] == body;
  }

  lemma {:induction false} FlushedWithoutPreview(key: string, body: seq<string>)
    requires IsKey(key)
    requires exists i :: 0 <= i < |body| && !IsBlank(body[i])
    ensures var content := Join(KeptLines(body), "\n");
            Flushed(Section(key, "", body), 0) == Some(SnippetItem(key, content, BuildPreview(content), 0))
  {
    NormalizedEmptyIffBlank(body);
    NoSpaceTrim(key);
    assert RemoveAll("", CursorMarker) == "";
    assert |Trim("")| == 0;
  }

  /** The text a snippet inserts and where the cursor goes, counted from the start of the inserted text. */
  datatype Insertion = Insertion(text: string, cursorOffset: nat)

  /**
   * `resolveSnippetInsert` as written: the first marker is cut out, then all
   * markers left in the joined text are removed, and the cursor goes to the
   * first marker's index, or to the end when there is none.
   */
  function ResolveAsWritten(raw: string): (r: Insertion)
    ensures !Contains(raw, CursorMarker) ==> r == Insertion(raw, |raw|)
    ensures Contains(raw, CursorMarker) ==> r.cursorOffset == IndexOfFrom(raw, CursorMarker, 0)
  {
    var i := IndexOfFrom(raw, CursorMarker, 0);
    IndexOfFindsContains(raw, CursorMarker);
    if i < 0 then
      var text := RemoveAll(raw, CursorMarker);
      RemoveAllAbsent(raw, CursorMarker);
      Insertion(text, |text|)
    else
      Insertion(RemoveAll(raw[..i] + raw[i + |CursorMarker|..], CursorMarker), i)
  }

  /**
   * Cutting the first marker can join the text around it into a new marker,
   * which the second step removes: the cursor then lies past the end of the
   * inserted text.
   */
  lemma {:induction false} ResolveAsWrittenOverruns()
    ensures ResolveAsWritten("{$cursor{$cursor}}") == Insertion("", 8)
    ensures ResolveAsWritten("{$cursor{$cursor}}").cursorOffset > |ResolveAsWritten("{$cursor{$cursor}}").text|
  {
    var raw := "{$cursor{$cursor}}";
    var m := CursorMarker;
    assert IsAt(raw, m, 8) by {
      assert raw[8..17] == m;
    }
    forall k | 0 <= k < 8 ensures !IsAt(raw, m, k) {
      assert raw[k + 8] != m[8];
    }
    var i := IndexOfFrom(raw, m, 0);
    assert i == 8;
    assert raw[..8] + raw[17..] == m;
    assert RemoveAll(m, m) == RemoveAll("", m);
  }

  /**
   * `resolveSnippetInsert` with every marker removed in one left-to-right
   * pass: the text is the raw content without its markers, and the cursor
   * goes where the first marker was, or to the end.
   */
  function ResolveSnippetInsert(raw: string): (r: Insertion)
    ensures r.text == RemoveAll(raw, CursorMarker)
    ensures r.cursorOffset <= |r.text| && r.text[..r.cursorOffset] == raw[..r.cursorOffset]
    ensures !Contains(raw, CursorMarker) ==> r == Insertion(raw, |raw|)
    ensures Contains(raw, CursorMarker) ==> r.cursorOffset == IndexOfFrom(raw, CursorMarker, 0)
  {
    var i := IndexOfFrom(raw, CursorMarker, 0);
    IndexOfFindsContains(raw, CursorMarker);
    var text := RemoveAll(raw, CursorMarker);
    if i < 0 then
      RemoveAllAbsent(raw, CursorMarker);
      Insertion(text, |text|)
    else
      RemoveAllFirst(raw, CursorMarker);
      Insertion(text, i)
  }

  /** Only `{` can start the marker, and the marker has no other `{`. */
  lemma {:induction false} MarkerStartsOnce(a: string, b: string, j: nat)
    requires j < |a| && j + |CursorMarker| > |a|
    ensures !IsAt(a + CursorMarker + b, CursorMarker, j)
  {
    var s := a + CursorMarker + b;
    assert s[|a|] == '{';
    if IsAt(s, CursorMarker, j) {
      assert s[j..j + |CursorMarker|][|a| - j] == s[|a|];
      assert CursorMarker[|a| - j] != '{';
    }
  }

  /**
   * With a single marker and no marker left once it is cut, both versions
   * insert the text without it and put the cursor where it was.
   */
  lemma {:induction false} ResolveSingleMarker(a: string, b: string)
    requires !Contains(a + b, CursorMarker)
    ensures ResolveAsWritten(a + CursorMarker + b) == Insertion(a + b, |a|)
    ensures ResolveSnippetInsert(a + CursorMarker + b) == Insertion(a + b, |a|)
  {
    var m := CursorMarker;
    var raw := a + m + b;
    SingleMarkerFirst(a, b);
    var i := IndexOfFrom(raw, m, 0);
    assert raw[..i] + raw[i + |m|..] == a + b;
    RemoveAllAbsent(a + b, m);
    AbsentInSuffix(a, b, m);
    RemoveAllAbsent(b, m);
    RemoveAllFirst(raw, m);
    assert raw[i + |m|..] == b;
  }

  /** The only marker is the first one. */
  lemma {:induction false} SingleMarkerFirst(a: string, b: string)
    requires !Contains(a + b, CursorMarker)
    ensures IndexOfFrom(a + CursorMarker + b, CursorMarker, 0) == |a|
  {
    var m := CursorMarker;
    var raw := a + m + b;
    assert IsAt(raw, m, |a|) by {
      assert raw[|a|..|a| + |m|] == m;
    }
    forall j | 0 <= j < |a| ensures !IsAt(raw, m, j) {
      if j + |m| <= |a| {
        if IsAt(raw, m, j) {
          assert raw[j..j + |m|] == (a + b)[j..j + |m|];
          assert IsAt(a + b, m, j);
        }
      } else {
        MarkerStartsOnce(a, b, j);
      }
    }
  }

  lemma {:induction false} AbsentInSuffix(a: string, b: string, m: string)
    requires !Contains(a + b, m)
    ensures !Contains(b, m)
  {
    forall j | 0 <= j <= |b| ensures !IsAt(b, m, j) {
      if IsAt(b, m, j) {
        assert (a + b)[|a| + j..|a| + j + |m|] == b[j..j + |m|];
        assert IsAt(a + b, m, |a| + j);
      }
    }
  }
}
