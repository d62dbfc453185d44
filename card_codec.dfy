/**
 * The inspiration-card text format: an optional front-matter block between
 * `---` lines, an optional `<!---cw-data … --->` metadata region holding a
 * JSON object, and a free-text body; plus the normalisers for the metadata's
 * tags, image paths, colour and numbers.
 */
module CardCodec {
  import opened Wrappers
  import opened Text
  import opened Seqs
  import opened Json

  const FenceOpen: string := "---\n"
  const FenceClose: string := "\n---\n"
  const CwOpen: string := "<!---cw-data"
  const CwClose: string := "\n--->"
  const BlockSeparator: string := "\n\n"
  const MaxImages: nat := 8

  /** What a card file reads as. */
  datatype CardContent = CardContent(
    frontmatterBody: Option<string>,
    cwDataBody: Option<string>,
    body: string,
    tagsLine: string,
    images: seq<string>,
    color: Option<string>,
    isPinned: bool,
    isFloating: bool,
    floatingX: Option<int>,
    floatingY: Option<int>,
    floatingWidth: Option<int>,
    floatingHeight: Option<int>)

  datatype FrontmatterInfo = FrontmatterInfo(body: string, endIndex: nat)

  datatype CwDataInfo = CwDataInfo(body: string, startIndex: nat, endIndex: nat)

  /* ---------------------------------------------------------------- line ends */

  /** `replace(/\r\n?/g, "\n")`: every CRLF pair and every lone CR becomes LF. */
  function NormalizeNewlines(s: string): (r: string)
    ensures '\r' !in r
    ensures '\r' !in s ==> r == s
    ensures |r| <= |s|
  {
    if s == [] then []
    else if s[0] == '\r' then
      if |s| > 1 && s[1] == '\n' then "\n" + NormalizeNewlines(s[2..]) else "\n" + NormalizeNewlines(s[1..])
    else [s[0]] + NormalizeNewlines(s[1..])
  }

  predicate AllNewlines(s: string)
  {
    forall i :: 0 <= i < |s| ==> s[i] == '\n'
  }

  /** `replace(/^\n+/, "")`. */
  function TrimLeadingNewlines(s: string): (r: string)
    ensures |r| <= |s| && r == s[|s| - |r|..] && AllNewlines(s[..|s| - |r|])
    ensures r == [] || r[0] != '\n'
  {
    if |s| > 0 && s[0] == '\n' then
      var t := s[1..];
      var r := TrimLeadingNewlines(t);
      assert t[|t| - |r|..] == s[|s| - |r|..];
      NewlinesCons(s, |t| - |r|);
      r
    else s
  }

  /** A run of newlines after a leading newline is a run one longer. */
  lemma {:induction false} NewlinesCons(s: string, k: nat)
    requires |s| > 0 && s[0] == '\n' && k < |s| && AllNewlines(s[1..][..k])
    ensures AllNewlines(s[..k + 1])
  {
    var run, rest := s[..k + 1], s[1..][..k];
    forall i | 0 <= i < |run|
      ensures run[i] == '\n'
    {
      if i > 0 {
        assert run[i] == rest[i - 1];
      }
    }
  }

  /** `replace(/\n+$/g, "")`. */
  function TrimTrailingNewlines(s: string): (r: string)
    ensures |r| <= |s| && r == s[..|r|] && AllNewlines(s[|r|..])
    ensures r == [] || r[|r| - 1] != '\n'
  {
    if |s| > 0 && s[|s| - 1] == '\n' then
      var r := TrimTrailingNewlines(s[..|s| - 1]);
      assert s[..|s| - 1][..|r|] == s[..|r|];
      assert AllNewlines(s[|r|..]) by {
        forall i | |r| <= i < |s| ensures s[i] == '\n' {
          if i < |s| - 1 {
            assert s[..|s| - 1][|r|..][i - |r|] == s[i];
          }
        }
      }
      r
    else s
  }

  /** The body as `composeContent` writes it: no leading and no trailing newlines. */
  function TrimNewlines(s: string): (r: string)
    ensures r == [] || (r[0] != '\n' && r[|r| - 1] != '\n')
  {
    TrimTrailingNewlines(TrimLeadingNewlines(s))
  }

  lemma {:induction false} TrimLeadingNewlinesAfter(n: string, x: string)
    requires AllNewlines(n)
    requires x == [] || x[0] != '\n'
    ensures TrimLeadingNewlines(n + x) == x
  {
    if n != [] {
      assert (n + x)[1..] == n[1..] + x;
      TrimLeadingNewlinesAfter(n[1..], x);
    }
  }

  /* ------------------------------------------------------------ front matter */

  /** `getFrontmatterInfo`: the text must open with `---\n`, and the block ends at the first `\n---\n` found from index 4. */
  function GetFrontmatterInfo(content: string): (r: Option<FrontmatterInfo>)
    ensures r.Some? ==> 4 + |r.value.body| + 5 == r.value.endIndex <= |content|
  {
    if !StartsWith(content, FenceOpen) then None
    else
      var endIndex := IndexOfFrom(content, FenceClose, 4);
      if endIndex == -1 then None
      else Some(FrontmatterInfo(content[4..endIndex], endIndex + 5))
  }

  /** Front matter is found exactly when the text opens with `---\n` and a closing `\n---\n` follows; its body stops at the first one. */
  lemma {:induction false} FrontmatterInfoSpec(content: string)
    ensures var r := GetFrontmatterInfo(content);
      (r.Some? ==> (content == FenceOpen + r.value.body + FenceClose + content[r.value.endIndex..]
        && forall j :: 4 <= j < 4 + |r.value.body| ==> !IsAt(content, FenceClose, j)))
      && (r.None? <==> !StartsWith(content, FenceOpen) || forall j :: 4 <= j ==> !IsAt(content, FenceClose, j))
  {
    var r := GetFrontmatterInfo(content);
    if r.Some? {
      var endIndex := r.value.endIndex - 5;
      assert content == content[..4] + content[4..endIndex] + content[endIndex..endIndex + 5] + content[endIndex + 5..];
    }
  }

  /* --------------------------------------------------------- metadata region */

  /** Length of the run of white space in `s` starting at `p`. */
  function SpaceRun(s: string, p: nat): (n: nat)
    requires p <= |s|
    ensures p + n <= |s| && AllSpace(s[p..p + n])
    ensures p + n == |s| || !IsSpace(s[p + n])
    decreases |s| - p
  {
    if p < |s| && IsSpace(s[p]) then
      var n := SpaceRun(s, p + 1);
      assert s[p..p + 1 + n] == [s[p]] + s[p + 1..p + 1 + n];
      1 + n
    else 0
  }

  /**
   * `\s*\n([\s\S]*?)\n--->` matched from `p`, once the engine's greedy `\s*`
   * has taken `k` characters: candidate newline positions are tried from the
   * right, and for each the lazy group stops at the first `\n--->`.
   */
  function CwBodyFrom(s: string, start: nat, p: nat, k: nat): (r: Option<CwDataInfo>)
    requires p + k <= |s|
    decreases k
  {
    if k == 0 then None
    else if s[p + k - 1] == '\n' && IndexOfFrom(s, CwClose, p + k) != -1 then
      var close := IndexOfFrom(s, CwClose, p + k);
      Some(CwDataInfo(s[p + k..close], start, close + |CwClose|))
    else CwBodyFrom(s, start, p, k - 1)
  }

  /** The regex `/<!---cw-data\s*\n([\s\S]*?)\n--->/` attempted at index `i`. */
  function CwMatchAt(s: string, i: nat): Option<CwDataInfo>
  {
    if IsAt(s, CwOpen, i) then CwBodyFrom(s, i, i + |CwOpen|, SpaceRun(s, i + |CwOpen|)) else None
  }

  function CwDataInfoFrom(s: string, i: nat): Option<CwDataInfo>
    decreases |s| - i
  {
    if i + |CwOpen| > |s| then None
    else if CwMatchAt(s, i).Some? then CwMatchAt(s, i)
    else CwDataInfoFrom(s, i + 1)
  }

  /**
   * The shape the regex accepts, without its greedy/lazy choices: the opening
   * tag at `i`, white space ending in a newline up to `bodyStart`, and a closing
   * `\n--->` at `close`.
   */
  predicate CwShape(s: string, i: int, bodyStart: int, close: int)
  {
    IsAt(s, CwOpen, i) && i + |CwOpen| < bodyStart <= close && IsAt(s, CwClose, close)
    && AllSpace(s[i + |CwOpen|..bodyStart]) && s[bodyStart - 1] == '\n'
  }

  /** A region found in `s`: its shape, its body, and a body that stops at the first closing `\n--->`. */
  predicate CwFound(s: string, r: CwDataInfo)
  {
    var close := r.endIndex - |CwClose|;
    var bodyStart := close - |r.body|;
    CwShape(s, r.startIndex, bodyStart, close) && r.body == s[bodyStart..close] && !Contains(r.body, CwClose)
  }

  /** `getCwDataInfo`: the leftmost match of the region regex, if any. */
  function GetCwDataInfo(content: string): (r: Option<CwDataInfo>)
    ensures r.Some? ==> r.value.startIndex < r.value.endIndex <= |content|
  {
    CwDataInfoFromSound(content, 0);
    CwDataInfoFrom(content, 0)
  }

  /** The region found has the regex's shape, stops at the first `\n--->`, and no match starts earlier; none is found only when no region has that shape. */
  lemma {:induction false} CwDataInfoSpec(content: string)
    ensures var r := GetCwDataInfo(content);
      (r.Some? ==> CwFound(content, r.value) && forall j :: 0 <= j < r.value.startIndex ==> CwMatchAt(content, j).None?)
      && (r.None? <==> forall i, b, c :: !CwShape(content, i, b, c))
  {
    CwDataInfoFromSound(content, 0);
    CwDataInfoFromComplete(content, 0);
  }

  lemma {:induction false} SpaceRunPrefix(s: string, p: nat, k: nat)
    requires p + k <= |s| && AllSpace(s[p..p + k]) && k > 0
    ensures AllSpace(s[p..p + k - 1])
  {
    assert s[p..p + k - 1] == s[p..p + k][..k - 1];
  }

  lemma {:induction false} SpaceRunCovers(s: string, p: nat, m: nat)
    requires p + m <= |s| && AllSpace(s[p..p + m])
    ensures m <= SpaceRun(s, p)
    decreases m
  {
    if m > 0 {
      assert s[p..p + m][0] == s[p];
      assert s[p + 1..p + m] == s[p..p + m][1..];
      SpaceRunCovers(s, p + 1, m - 1);
    }
  }

  lemma {:induction false} CwClosedAt(s: string, start: nat, p: nat, k: nat)
    requires p + k <= |s| && IsAt(s, CwOpen, start) && p == start + |CwOpen| && k > 0
    requires AllSpace(s[p..p + k]) && s[p + k - 1] == '\n' && IndexOfFrom(s, CwClose, p + k) != -1
    ensures CwFound(s, CwBodyFrom(s, start, p, k).value) && CwBodyFrom(s, start, p, k).value.startIndex == start
  {
    var close := IndexOfFrom(s, CwClose, p + k);
    var body := s[p + k..close];
    var r := CwDataInfo(body, start, close + |CwClose|);
    assert CwBodyFrom(s, start, p, k) == Some(r);
    assert r.endIndex - |CwClose| - |r.body| == p + k;
    assert CwShape(s, start, p + k, close);
    NoCloseBefore(s, p + k, close);
    CwFoundOf(s, start, p + k, close);
  }

  lemma {:induction false} CwFoundOf(s: string, start: nat, bodyStart: nat, close: nat)
    requires CwShape(s, start, bodyStart, close) && !Contains(s[bodyStart..close], CwClose)
    ensures CwFound(s, CwDataInfo(s[bodyStart..close], start, close + |CwClose|))
  {
  }

  /** A slice that ends at the first closing `\n--->` from its start holds none. */
  lemma {:induction false} NoCloseBefore(s: string, from: nat, close: nat)
    requires from <= close <= |s| && forall i :: from <= i < close ==> !IsAt(s, CwClose, i)
    ensures !Contains(s[from..close], CwClose)
  {
    forall j | 0 <= j <= close - from
      ensures !IsAt(s[from..close], CwClose, j)
    {
      if IsAt(s[from..close], CwClose, j) {
        IsAtSlice(s, from, close, CwClose, j);
      }
    }
  }

  lemma {:induction false} CwBodyFromSound(s: string, start: nat, p: nat, k: nat)
    requires p + k <= |s| && IsAt(s, CwOpen, start) && p == start + |CwOpen|
    requires AllSpace(s[p..p + k])
    ensures var r := CwBodyFrom(s, start, p, k);
      r.Some? ==> r.value.startIndex == start && CwFound(s, r.value)
    decreases k
  {
    if k > 0 {
      if s[p + k - 1] == '\n' && IndexOfFrom(s, CwClose, p + k) != -1 {
        CwClosedAt(s, start, p, k);
      } else {
        SpaceRunPrefix(s, p, k);
        CwBodyFromSound(s, start, p, k - 1);
      }
    }
  }

  lemma {:induction false} CwBodyFromComplete(s: string, start: nat, p: nat, k: nat, b: int, c: int)
    requires p + k <= |s|
    requires p < b <= p + k && s[b - 1] == '\n' && b <= c && IsAt(s, CwClose, c)
    ensures CwBodyFrom(s, start, p, k).Some?
    decreases k
  {
    if !(s[p + k - 1] == '\n' && IndexOfFrom(s, CwClose, p + k) != -1) {
      if b == p + k {
        assert false;
      }
      CwBodyFromComplete(s, start, p, k - 1, b, c);
    }
  }

  lemma {:induction false} CwMatchAtComplete(s: string, i: nat, b: int, c: int)
    requires CwShape(s, i, b, c)
    ensures CwMatchAt(s, i).Some?
  {
    var p := i + |CwOpen|;
    SpaceRunCovers(s, p, b - p);
    CwBodyFromComplete(s, i, p, SpaceRun(s, p), b, c);
  }

  lemma {:induction false} CwDataInfoFromSound(s: string, i: nat)
    ensures var r := CwDataInfoFrom(s, i);
      r.Some? ==> (i <= r.value.startIndex && CwFound(s, r.value)
        && forall j :: i <= j < r.value.startIndex ==> CwMatchAt(s, j).None?)
    decreases |s| - i
  {
    if i + |CwOpen| <= |s| {
      if CwMatchAt(s, i).Some? {
        var p := i + |CwOpen|;
        assert s[p..p + 0] == [];
        CwBodyFromSound(s, i, p, SpaceRun(s, p));
      } else {
        CwDataInfoFromSound(s, i + 1);
      }
    }
  }

  lemma {:induction false} CwDataInfoFromComplete(s: string, i: nat)
    ensures CwDataInfoFrom(s, i).None? <==> forall j, b, c :: i <= j ==> !CwShape(s, j, b, c)
    decreases |s| - i
  {
    if i + |CwOpen| > |s| {
    } else if CwMatchAt(s, i).Some? {
      var p := i + |CwOpen|;
      CwBodyFromSound(s, i, p, SpaceRun(s, p));
    } else {
      CwDataInfoFromComplete(s, i + 1);
      forall b, c ensures !CwShape(s, i, b, c) {
        if CwShape(s, i, b, c) {
          CwMatchAtComplete(s, i, b, c);
        }
      }
    }
  }

  /* ------------------------------------------------------ metadata object */

  const ColorKey: string := "\"color\""

  /**
   * `("color"\s*:\s*)(#[0-9a-fA-F]{6})` attempted at the start of `s`: the
   * index of the `#` when it matches. White space never equals `:` or `#`, so
   * the greedy runs need no backtracking.
   */
  function BareColorAt(s: string): (r: Option<nat>)
    ensures r.Some? ==> r.value + 7 <= |s| && s[r.value] == '#' && StartsWith(s, ColorKey)
  {
    if !StartsWith(s, ColorKey) then None
    else
      var colon := |ColorKey| + SpaceRun(s, |ColorKey|);
      if colon >= |s| || s[colon] != ':' then None
      else
        var hash := colon + 1 + SpaceRun(s, colon + 1);
        if hash + 7 <= |s| && s[hash] == '#' && forall j :: hash < j < hash + 7 ==> IsHexDigit(s[j]) then Some(hash)
        else None
  }

  /** `replace(/("color"\s*:\s*)(#[0-9a-fA-F]{6})/g, '$1"$2"')`: a bare colour after `"color":` gets quoted. */
  function QuoteBareColors(s: string): (r: string)
    decreases |s|
  {
    if s == [] then []
    else match BareColorAt(s)
      case Some(h) => s[..h] + Quoted(s[h..h + 7]) + QuoteBareColors(s[h + 7..])
      case None => [s[0]] + QuoteBareColors(s[1..])
  }

  function Quoted(c: string): string
  {
    "\"" + c + "\""
  }

  /** The text with every `"` removed. */
  function Unquoted(s: string): (r: string)
  {
    if s == [] then [] else (if s[0] == '"' then [] else [s[0]]) + Unquoted(s[1..])
  }

  lemma {:induction false} UnquotedAppend(a: string, b: string)
    ensures Unquoted(a + b) == Unquoted(a) + Unquoted(b)
  {
    if a != [] {
      assert (a + b)[0] == a[0];
      assert (a + b)[1..] == a[1..] + b;
      UnquotedAppend(a[1..], b);
    } else {
      assert a + b == b;
    }
  }

  lemma {:induction false} Unquoted3(a: string, b: string, c: string)
    ensures Unquoted(a + b + c) == Unquoted(a) + Unquoted(b) + Unquoted(c)
  {
    UnquotedAppend(a + b, c);
    UnquotedAppend(a, b);
  }

  lemma {:induction false} QuoteBareColorsStep(s: string)
    requires s != []
    ensures BareColorAt(s).Some? ==> var h := BareColorAt(s).value;
      QuoteBareColors(s) == s[..h] + Quoted(s[h..h + 7]) + QuoteBareColors(s[h + 7..])
    ensures BareColorAt(s).None? ==> QuoteBareColors(s) == [s[0]] + QuoteBareColors(s[1..])
  {
  }

  /** The colour pre-pass only inserts quotation marks: with all `"` removed, input and output agree. */
  lemma {:induction false} QuoteBareColorsOnlyAddsQuotes(s: string)
    ensures Unquoted(QuoteBareColors(s)) == Unquoted(s)
    decreases |s|
  {
    if s != [] {
      QuoteBareColorsStep(s);
      var m := BareColorAt(s);
      if m.Some? {
        var h := m.value;
        QuoteBareColorsOnlyAddsQuotes(s[h + 7..]);
        UnquotedQuotedStep(s[..h], s[h..h + 7], QuoteBareColors(s[h + 7..]), s[h + 7..]);
        SliceThree(s, h, h + 7);
      } else {
        QuoteBareColorsOnlyAddsQuotes(s[1..]);
        UnquotedConsStep(s[0], QuoteBareColors(s[1..]), s[1..]);
        assert s == [s[0]] + s[1..];
      }
    }
  }

  /** Keeping one character and rewriting the rest without changing its unquoted text keeps the unquoted text. */
  lemma {:induction false} UnquotedConsStep(c: char, q: string, tail: string)
    requires Unquoted(q) == Unquoted(tail)
    ensures Unquoted([c] + q) == Unquoted([c] + tail)
  {
    UnquotedAppend([c], q);
    UnquotedAppend([c], tail);
  }

  /** Quoting one colour and rewriting the rest without changing its unquoted text keeps the unquoted text. */
  lemma {:induction false} UnquotedQuotedStep(pre: string, col: string, q: string, tail: string)
    requires Unquoted(q) == Unquoted(tail)
    ensures Unquoted(pre + Quoted(col) + q) == Unquoted(pre + col + tail)
  {
    Unquoted3("\"", col, "\"");
    assert Unquoted("\"") == [];
    Unquoted3(pre, Quoted(col), q);
    Unquoted3(pre, col, tail);
  }

  /** Text that never mentions `"color"` goes through the pre-pass unchanged. */
  lemma {:induction false} QuoteBareColorsNoKey(s: string)
    requires !Contains(s, ColorKey)
    ensures QuoteBareColors(s) == s
    decreases |s|
  {
    if s != [] {
      assert BareColorAt(s).None? by {
        if StartsWith(s, ColorKey) { assert IsAt(s, ColorKey, 0); }
      }
      assert !Contains(s[1..], ColorKey) by {
        forall i | 0 <= i <= |s[1..]| && IsAt(s[1..], ColorKey, i) ensures false {
          assert s[i + 1..i + 1 + |ColorKey|] == s[1..][i..i + |ColorKey|];
          assert IsAt(s, ColorKey, i + 1);
        }
      }
      QuoteBareColorsNoKey(s[1..]);
    }
  }

  /** A bare seven-character colour after the key. */
  predicate BareColor(col: string)
  {
    |col| == 7 && col[0] == '#' && forall j :: 0 < j < 7 ==> IsHexDigit(col[j])
  }

  /** The pre-pass applied to the documented tolerance: `"color": #4a86e9` becomes `"color": "#4a86e9"`. */
  lemma {:induction false} QuoteBareColorsOfKeyValue(col: string)
    requires BareColor(col)
    ensures QuoteBareColors(ColorKey + ": " + col) == ColorKey + ": " + Quoted(col)
  {
    var s := ColorKey + ": " + col;
    BareColorAtKeyValue(col);
    QuoteBareColorsStep(s);
    assert s[..9] == ColorKey + ": ";
    assert s[9..16] == col;
    assert s[16..] == [] && QuoteBareColors([]) == [];
  }

  lemma {:induction false} BareColorAtKeyValue(col: string)
    requires BareColor(col)
    ensures BareColorAt(ColorKey + ": " + col) == Some(9)
  {
    var s := ColorKey + ": " + col;
    assert s[..|ColorKey|] == ColorKey;
    assert s[7] == ':' && s[8] == ' ' && s[9] == '#';
    SpaceRunStops(s, 7);
    SpaceRunStops(s, 9);
    assert SpaceRun(s, 8) == 1;
    assert forall j :: 9 < j < 16 ==> IsHexDigit(s[j]) by {
      forall j | 9 < j < 16 ensures IsHexDigit(s[j]) { assert s[j] == col[j - 9]; }
    }
  }

  lemma {:induction false} SpaceRunStops(s: string, p: nat)
    requires p < |s| && !IsSpace(s[p])
    ensures SpaceRun(s, p) == 0
  {
  }

  /**
   * `parseCwDataObject`: the trimmed region text, colours quoted, handed to the
   * foreign JSON parser. Blank text, a parse failure and a result that is not
   * an object give nothing; an array is an object to JavaScript, but has none
   * of the properties the card reads, so it reads as an empty bag.
   */
  function ParseCwDataObject(cwDataBody: Option<string>, parse: JsonParser): (r: Option<Metadata>)
    ensures IsBlank(cwDataBody.GetOr("")) ==> r.None?
    ensures r.Some? ==> var v := parse(QuoteBareColors(Trim(cwDataBody.GetOr(""))));
      v.Some? && (v.value.JObj? || v.value.JArr?)
    ensures forall m :: parse(QuoteBareColors(Trim(cwDataBody.GetOr("")))) == Some(JObj(m)) && !IsBlank(cwDataBody.GetOr("")) ==> r == Some(m)
  {
    var normalized := Trim(cwDataBody.GetOr(""));
    if normalized == [] then None
    else
      match parse(QuoteBareColors(normalized))
      case Some(JObj(m)) => Some(m)
      case Some(JArr(_)) => Some(map[])
      case _ => None
  }

  /* ------------------------------------------------------- field normalisers */

  /** `#` followed by six hexadecimal digits. */
  predicate IsHexColor(t: string)
  {
    |t| == 7 && t[0] == '#' && forall j :: 1 <= j < 7 ==> IsHexDigit(t[j])
  }

  predicate NoLowerCase(t: string)
  {
    forall j :: 0 <= j < |t| ==> !('a' <= t[j] <= 'z')
  }

  /** `normalizeHexColor`: a string whose trim is a hex colour, upper-cased; anything else gives nothing. */
  function NormalizeHexColor(value: Option<JValue>): (r: Option<string>)
    ensures r.Some? <==> value.Some? && value.value.JStr? && IsHexColor(Trim(value.value.s))
    ensures r.Some? ==> IsHexColor(r.value) && NoLowerCase(r.value)
    ensures r.Some? ==> var t := Trim(value.value.s); forall j :: 0 <= j < 7 ==> LowerChar(r.value[j]) == LowerChar(t[j])
  {
    if value.Some? && value.value.JStr? && IsHexColor(Trim(value.value.s)) then
      var t := Trim(value.value.s);
      forall j | 0 <= j < 7 {
        UpperCharFacts(t[j]);
      }
      Some(ToUpper(t))
    else None
  }

  lemma {:induction false} UpperCharFacts(c: char)
    ensures IsHexDigit(c) ==> IsHexDigit(UpperChar(c))
    ensures !('a' <= UpperChar(c) <= 'z')
    ensures LowerChar(UpperChar(c)) == LowerChar(c)
    ensures c == '#' ==> UpperChar(c) == '#'
  {
  }

  /** A normalised colour is a fixed point of the normaliser. */
  lemma {:induction false} NormalizeHexColorIdempotent(value: Option<JValue>)
    requires NormalizeHexColor(value).Some?
    ensures NormalizeHexColor(Some(JStr(NormalizeHexColor(value).value))) == NormalizeHexColor(value)
  {
    var c := NormalizeHexColor(value).value;
    TrimNoOuterSpace(c);
    assert forall j :: 0 <= j < 7 ==> UpperChar(c[j]) == c[j];
    assert ToUpper(c) == c;
  }

  /** `normalizeFiniteNumber`: only a finite number passes. */
  function NormalizeFiniteNumber(value: Option<JValue>): (r: Option<int>)
    ensures r.Some? <==> value.Some? && value.value.JNum? && value.value.n.Finite?
    ensures r.Some? ==> value.value.n.value == r.value
  {
    match value
    case Some(JNum(Finite(n))) => Some(n)
    case _ => None
  }

  /** `value === true`. */
  predicate IsTrue(value: Option<JValue>)
  {
    value == Some(JBool(true))
  }

  /* ------------------------------------------------------------------ tags */

  /** A character `[^\s,#]` accepts. */
  predicate TagChar(c: char)
  {
    !IsSpace(c) && c != ',' && c != '#'
  }

  /** A canonical tag: `#` and one or more characters that are not white space, `,` or `#`. */
  predicate WellFormedTag(t: string)
  {
    |t| >= 2 && t[0] == '#' && forall j :: 1 <= j < |t| ==> TagChar(t[j])
  }

  /** The tag shape the source promises: `#`, at least one more character, no white space, no comma. */
  predicate TagShape(t: string)
  {
    |t| >= 2 && t[0] == '#' && forall j :: 0 <= j < |t| ==> !IsSpace(t[j]) && t[j] != ','
  }

  function TagRun(s: string): (n: nat)
    ensures n <= |s| && (forall j :: 0 <= j < n ==> TagChar(s[j])) && (n == |s| || !TagChar(s[n]))
  {
    if s != [] && TagChar(s[0]) then 1 + TagRun(s[1..]) else 0
  }

  /** `raw.match(/#[^\s,#]+/g)`: the successive non-overlapping matches, left to right. */
  function HashTagMatches(s: string): (ms: seq<string>)
    ensures forall i :: 0 <= i < |ms| ==> WellFormedTag(ms[i])
    decreases |s|
  {
    if s == [] then []
    else if s[0] == '#' && |s| > 1 && TagChar(s[1]) then
      var n := 1 + TagRun(s[1..]);
      [s[..n]] + HashTagMatches(s[n..])
    else HashTagMatches(s[1..])
  }

  /** Each direct match `m` becomes `#` + `m.slice(1).trim()`, skipped when that core is empty. */
  function DirectTokens(ms: seq<string>): (ts: seq<string>)
    requires forall i :: 0 <= i < |ms| ==> WellFormedTag(ms[i])
  {
    if ms == [] then []
    else
      assert WellFormedTag(ms[0]);
      var core := Trim(ms[0][1..]);
      (if core == [] then [] else ["#" + core]) + DirectTokens(ms[1..])
  }

  /** A piece as `trim` and the non-empty filter leave it. */
  predicate CanonicalPath(x: string)
  {
    x != [] && Trim(x) == x
  }

  /** `split(",").map(trim).filter(nonEmpty)` applied piece by piece. */
  function NonEmptyTrimmed(pieces: seq<string>): seq<string>
  {
    if pieces == [] then []
    else
      var t := Trim(pieces[0]);
      (if t == [] then [] else [t]) + NonEmptyTrimmed(pieces[1..])
  }

  lemma {:induction false} NonEmptyTrimmedAppend(a: seq<string>, b: seq<string>)
    ensures NonEmptyTrimmed(a + b) == NonEmptyTrimmed(a) + NonEmptyTrimmed(b)
  {
    if a != [] {
      assert (a + b)[0] == a[0];
      assert (a + b)[1..] == a[1..] + b;
      NonEmptyTrimmedAppend(a[1..], b);
    } else {
      assert a + b == b;
    }
  }

  /**
   * The token one comma-separated segment gives: the segment, or what follows
   * its leading `#`, trimmed; skipped when empty or when it holds white space.
   * With `rejectHash` a core holding `#` is skipped as well.
   */
  function SegmentToken(segment: string, rejectHash: bool): (r: Option<string>)
  {
    var core := if StartsWith(segment, "#") then Trim(segment[1..]) else Trim(segment);
    if core == [] || !NoSpace(core) || (rejectHash && '#' in core) then None else Some("#" + core)
  }

  function SegmentTokens(segments: seq<string>, rejectHash: bool): seq<string>
  {
    if segments == [] then []
    else
      var t := SegmentToken(segments[0], rejectHash);
      (if t.Some? then [t.value] else []) + SegmentTokens(segments[1..], rejectHash)
  }

  /** The tokens one raw string contributes, before de-duplication. */
  function CandidateTokens(raw: string, rejectHash: bool): seq<string>
  {
    var ms := HashTagMatches(raw);
    if |ms| > 0 then DirectTokens(ms) else SegmentTokens(NonEmptyTrimmed(Split(raw, ',')), rejectHash)
  }

  /** The strings a metadata value offers: a string itself, or the string items of an array. */
  function RawItems(value: Option<JValue>): seq<string>
  {
    match value
    case Some(JStr(s)) => [s]
    case Some(JArr(items)) => StringItems(items)
    case _ => []
  }

  function StringItems(items: seq<JValue>): seq<string>
  {
    if items == [] then [] else (if items[0].JStr? then [items[0].s] else []) + StringItems(items[1..])
  }

  function TagCandidates(raws: seq<string>, rejectHash: bool): seq<string>
  {
    if raws == [] then [] else CandidateTokens(raws[0], rejectHash) + TagCandidates(raws[1..], rejectHash)
  }

  /** A character-free piece stays character-free once trimmed. */
  lemma {:induction false} TrimKeepsOut(s: string, c: char)
    requires c !in s
    ensures c !in Trim(s)
  {
    TrimMembers(s);
  }

  lemma {:induction false} NonEmptyTrimmedKeepsOut(pieces: seq<string>, c: char)
    requires forall p :: p in pieces ==> c !in p
    ensures forall x :: x in NonEmptyTrimmed(pieces) ==> c !in x
  {
    if pieces != [] {
      TrimKeepsOut(pieces[0], c);
      NonEmptyTrimmedKeepsOut(pieces[1..], c);
    }
  }

  /** Pieces that are already trimmed and non-empty pass through unchanged. */
  lemma {:induction false} NonEmptyTrimmedFixed(pieces: seq<string>)
    requires forall i :: 0 <= i < |pieces| ==> pieces[i] != [] && Trim(pieces[i]) == pieces[i]
    ensures NonEmptyTrimmed(pieces) == pieces
  {
    if pieces != [] {
      NonEmptyTrimmedFixed(pieces[1..]);
      assert [pieces[0]] + pieces[1..] == pieces;
    }
  }

  /** What a candidate token looks like: canonical when `#` is rejected, the source's weaker shape otherwise. */
  predicate CandidateShape(t: string, rejectHash: bool)
  {
    if rejectHash then WellFormedTag(t) else TagShape(t)
  }

  lemma {:induction false} HashThenCore(t: string)
    requires |t| >= 1 && t[0] == '#'
    ensures "#" + t[1..] == t
  {
    assert [t[0]] + t[1..] == t;
  }

  lemma {:induction false} CoreTrimmed(t: string)
    requires |t| >= 1 && NoSpace(t[1..])
    ensures Trim(t[1..]) == t[1..]
  {
    NoSpaceTrim(t[1..]);
  }

  lemma {:induction false} WellFormedTagNoSpace(t: string)
    requires WellFormedTag(t)
    ensures NoSpace(t[1..])
  {
    var core := t[1..];
    forall j | 0 <= j < |core|
      ensures !IsSpace(core[j])
    {
      assert core[j] == t[j + 1];
    }
  }

  lemma {:induction false} WellFormedTagShape(t: string)
    requires WellFormedTag(t)
    ensures CandidateShape(t, true) && CandidateShape(t, false)
  {
  }

  /** A canonical tag is `#` followed by a core that trimming leaves alone. */
  lemma {:induction false} WellFormedTagCore(t: string)
    requires WellFormedTag(t)
    ensures Trim(t[1..]) == t[1..] && "#" + t[1..] == t
  {
    WellFormedTagNoSpace(t);
    CoreTrimmed(t);
    HashThenCore(t);
  }

  lemma {:induction false} DirectTokensHead(ms: seq<string>)
    requires |ms| > 0 && forall i :: 0 <= i < |ms| ==> WellFormedTag(ms[i])
    ensures DirectTokens(ms) == [ms[0]] + DirectTokens(ms[1..])
  {
    WellFormedTagCore(ms[0]);
  }

  /** Direct matches are already canonical, so the trim in between changes none of them. */
  lemma {:induction false} DirectTokensOfMatches(ms: seq<string>)
    requires forall i :: 0 <= i < |ms| ==> WellFormedTag(ms[i])
    ensures DirectTokens(ms) == ms
  {
    if ms != [] {
      DirectTokensHead(ms);
      DirectTokensOfMatches(ms[1..]);
      assert [ms[0]] + ms[1..] == ms;
    }
  }

  lemma {:induction false} SegmentTokenShape(seg: string, rejectHash: bool)
    requires ',' !in seg
    ensures SegmentToken(seg, rejectHash).Some? ==> CandidateShape(SegmentToken(seg, rejectHash).value, rejectHash)
  {
    var core := if StartsWith(seg, "#") then Trim(seg[1..]) else Trim(seg);
    if StartsWith(seg, "#") {
      assert ',' !in seg[1..] by {
        assert forall x :: x in seg[1..] ==> x in seg;
      }
      TrimKeepsOut(seg[1..], ',');
    } else {
      TrimKeepsOut(seg, ',');
    }
    var t := "#" + core;
    if SegmentToken(seg, rejectHash).Some? {
      assert SegmentToken(seg, rejectHash).value == t;
      forall j | 1 <= j < |t|
        ensures !IsSpace(t[j]) && t[j] != ',' && (rejectHash ==> t[j] != '#')
      {
        assert t[j] == core[j - 1];
      }
    }
  }

  lemma {:induction false} SegmentTokensShape(segments: seq<string>, rejectHash: bool)
    requires forall x :: x in segments ==> ',' !in x
    ensures forall t :: t in SegmentTokens(segments, rejectHash) ==> CandidateShape(t, rejectHash)
  {
    if segments != [] {
      SegmentTokenShape(segments[0], rejectHash);
      SegmentTokensShape(segments[1..], rejectHash);
    }
  }

  lemma {:induction false} CandidateTokensShape(raw: string, rejectHash: bool)
    ensures forall t :: t in CandidateTokens(raw, rejectHash) ==> CandidateShape(t, rejectHash)
  {
    var ms := HashTagMatches(raw);
    if |ms| > 0 {
      DirectTokensOfMatches(ms);
      forall t | t in ms
        ensures CandidateShape(t, rejectHash)
      {
        WellFormedTagShape(t);
      }
    } else {
      var pieces := Split(raw, ',');
      NonEmptyTrimmedKeepsOut(pieces, ',');
      SegmentTokensShape(NonEmptyTrimmed(pieces), rejectHash);
    }
  }

  lemma {:induction false} TagCandidatesShape(raws: seq<string>, rejectHash: bool)
    ensures forall t :: t in TagCandidates(raws, rejectHash) ==> CandidateShape(t, rejectHash)
  {
    if raws != [] {
      CandidateTokensShape(raws[0], rejectHash);
      TagCandidatesShape(raws[1..], rejectHash);
    }
  }

  lemma {:induction false} TagCandidatesSnoc(raws: seq<string>, raw: string, rejectHash: bool)
    ensures TagCandidates(raws + [raw], rejectHash) == TagCandidates(raws, rejectHash) + CandidateTokens(raw, rejectHash)
  {
    if raws == [] {
      assert raws + [raw] == [raw];
      assert TagCandidates([raw], rejectHash) == CandidateTokens(raw, rejectHash) + TagCandidates([], rejectHash);
    } else {
      assert (raws + [raw])[1..] == raws[1..] + [raw];
      TagCandidatesSnoc(raws[1..], raw, rejectHash);
    }
  }

  /** Every token of the de-duplicated candidates has the candidates' shape. */
  lemma {:induction false} DedupShape(cands: seq<string>, rejectHash: bool)
    requires forall t :: t in cands ==> CandidateShape(t, rejectHash)
    ensures forall i :: 0 <= i < |Dedup(cands)| ==> CandidateShape(Dedup(cands)[i], rejectHash)
  {
    var r := Dedup(cands);
    DedupMembers(cands);
    forall i | 0 <= i < |r|
      ensures CandidateShape(r[i], rejectHash)
    {
      assert r[i] in r;
    }
  }

  /** `extractTagTokens` exactly as written: a segment core holding `#` is accepted. */
  function TagTokensAsWritten(value: Option<JValue>): (r: seq<string>)
    ensures NoDups(r)
    ensures forall i :: 0 <= i < |r| ==> TagShape(r[i])
  {
    var cands := TagCandidates(RawItems(value), false);
    TagCandidatesShape(RawItems(value), false);
    DedupShape(cands, false);
    Dedup(cands)
  }

  /**
   * `extractTagTokens`, with a segment core holding `#` skipped as the direct
   * matches already do: distinct canonical tokens in first-seen order; values
   * that are neither a string nor an array give none.
   */
  function TagTokens(value: Option<JValue>): (r: seq<string>)
    ensures NoDups(r)
    ensures forall i :: 0 <= i < |r| ==> WellFormedTag(r[i])
    ensures forall t :: t in r <==> t in TagCandidates(RawItems(value), true)
    ensures value.None? || !(value.value.JStr? || value.value.JArr?) ==> r == []
  {
    var cands := TagCandidates(RawItems(value), true);
    TagCandidatesShape(RawItems(value), true);
    DedupShape(cands, true);
    DedupMembers(cands);
    Dedup(cands)
  }

  /** Non-string array items are ignored. */
  lemma {:induction false} StringItemsSkip(items: seq<JValue>, x: JValue)
    requires !x.JStr?
    ensures StringItems(items + [x]) == StringItems(items)
  {
    if items == [] {
      assert items + [x] == [x];
      assert [x][1..] == [];
    } else {
      assert (items + [x])[1..] == items[1..] + [x];
      StringItemsSkip(items[1..], x);
    }
  }

  lemma {:induction false} TagTokensIgnoreNonStrings(items: seq<JValue>, x: JValue)
    requires !x.JStr?
    ensures TagTokens(Some(JArr(items + [x]))) == TagTokens(Some(JArr(items)))
  {
    StringItemsSkip(items, x);
  }

  lemma {:induction false} TagTokensStep(rawItems: seq<string>, i: nat)
    requires i < |rawItems|
    ensures DedupInto([], TagCandidates(rawItems[..i + 1], true))
         == DedupInto(DedupInto([], TagCandidates(rawItems[..i], true)), CandidateTokens(rawItems[i], true))
  {
    assert rawItems[..i + 1] == rawItems[..i] + [rawItems[i]];
    TagCandidatesSnoc(rawItems[..i], rawItems[i], true);
    DedupIntoAppend([], TagCandidates(rawItems[..i], true), CandidateTokens(rawItems[i], true));
  }

  /** The loop of `extractTagTokens`: each raw string's candidates are pushed unless the `seen` set already holds them. */
  method ExtractTagTokens(value: Option<JValue>) returns (tokens: seq<string>)
    ensures tokens == TagTokens(value)
  {
    var rawItems := RawItems(value);
    tokens := [];
    var seen: set<string> := {};
    var i := 0;
    while i < |rawItems|
      invariant 0 <= i <= |rawItems|
      invariant tokens == DedupInto([], TagCandidates(rawItems[..i], true))
      invariant forall t :: t in seen <==> t in tokens
    {
      TagTokensStep(rawItems, i);
      tokens, seen := PushUnseen(tokens, seen, CandidateTokens(rawItems[i], true));
      i := i + 1;
    }
    assert rawItems[..i] == rawItems;
  }

  /** `formatTagLineFromTokens`: a leading space, then the tokens separated by spaces. */
  function FormatTagLine(tokens: seq<string>): (r: string)
    ensures r == "" <==> tokens == []
    ensures tokens != [] ==> r[0] == ' '
  {
    if |tokens| > 0 then " " + Join(tokens, " ") else ""
  }

  /** `formatTagCsvFromTokens`: the tokens separated by commas, or nothing. */
  function FormatTagCsv(tokens: seq<string>): (r: Option<string>)
    ensures r.None? <==> tokens == []
  {
    if |tokens| > 0 then Some(Join(tokens, ",")) else None
  }

  /** `normalizeTagLine`. */
  function NormalizeTagLine(value: string): (r: string)
    ensures r == "" <==> TagTokens(Some(JStr(value))) == []
    ensures r != "" ==> r[0] == ' '
  {
    FormatTagLine(TagTokens(Some(JStr(value))))
  }

  function NormalizeTagLineAsWritten(value: string): string
  {
    FormatTagLine(TagTokensAsWritten(Some(JStr(value))))
  }

  lemma {:induction false} TagRunStops(core: string, rest: string)
    requires forall j :: 0 <= j < |core| ==> TagChar(core[j])
    requires rest == [] || !TagChar(rest[0])
    ensures TagRun(core + rest) == |core|
  {
    if core != [] {
      assert (core + rest)[0] == core[0];
      assert (core + rest)[1..] == core[1..] + rest;
      TagRunStops(core[1..], rest);
    } else {
      assert core + rest == rest;
    }
  }

  /** A canonical token followed by a separator that no tag holds is matched whole. */
  lemma {:induction false} HashTagMatchesToken(t: string, rest: string)
    requires WellFormedTag(t)
    requires rest == [] || !TagChar(rest[0])
    ensures HashTagMatches(t + rest) == [t] + HashTagMatches(rest)
  {
    var s := t + rest;
    assert s[0] == '#' && s[1] == t[1];
    assert s[1..] == t[1..] + rest;
    TagRunStops(t[1..], rest);
    assert s[..|t|] == t;
    assert s[|t|..] == rest;
  }

  lemma {:induction false} HashTagMatchesSkip(c: char, rest: string)
    requires c != '#'
    ensures HashTagMatches([c] + rest) == HashTagMatches(rest)
  {
    assert ([c] + rest)[1..] == rest;
  }

  /** Joining canonical tokens with a space or a comma and matching again gives the tokens back. */
  lemma {:induction false} HashTagMatchesJoin(tokens: seq<string>, sep: char)
    requires forall i :: 0 <= i < |tokens| ==> WellFormedTag(tokens[i])
    requires !TagChar(sep) && sep != '#'
    ensures HashTagMatches(Join(tokens, [sep])) == tokens
  {
    if |tokens| == 1 {
      HashTagMatchesToken(tokens[0], []);
      assert tokens[0] + [] == tokens[0];
    } else if |tokens| > 1 {
      var rest := Join(tokens[1..], [sep]);
      assert Join(tokens, [sep]) == tokens[0] + ([sep] + rest);
      HashTagMatchesToken(tokens[0], [sep] + rest);
      HashTagMatchesSkip(sep, rest);
      HashTagMatchesJoin(tokens[1..], sep);
      assert [tokens[0]] + tokens[1..] == tokens;
    }
  }

  lemma {:induction false} TagTokensOfJoined(tokens: seq<string>, text: string)
    requires |tokens| > 0 && NoDups(tokens)
    requires forall i :: 0 <= i < |tokens| ==> WellFormedTag(tokens[i])
    requires HashTagMatches(text) == tokens
    ensures TagTokens(Some(JStr(text))) == tokens
  {
    DirectTokensOfMatches(tokens);
    assert CandidateTokens(text, true) == tokens;
    TagTokensOfString(text);
    DedupDistinct(tokens);
  }

  /** A single string's tokens are its candidates, without repeats. */
  lemma {:induction false} TagTokensOfString(text: string)
    ensures TagTokens(Some(JStr(text))) == Dedup(CandidateTokens(text, true))
  {
    assert RawItems(Some(JStr(text))) == [text];
    assert TagCandidates([text], true) == CandidateTokens(text, true) + TagCandidates([], true);
    assert CandidateTokens(text, true) + [] == CandidateTokens(text, true);
  }

  lemma {:induction false} TagTokensOfEmpty()
    ensures TagTokens(Some(JStr(""))) == []
  {
    assert Split("", ',') == [""];
    assert Trim("") == "";
    assert NonEmptyTrimmed([""]) == [];
    assert TagCandidates([""], true) == [];
  }

  /** Reading back a tag line gives the tokens it was formatted from. */
  lemma {:induction false} TagLineRoundTrip(tokens: seq<string>)
    requires NoDups(tokens) && forall i :: 0 <= i < |tokens| ==> WellFormedTag(tokens[i])
    ensures TagTokens(Some(JStr(FormatTagLine(tokens)))) == tokens
  {
    if |tokens| == 0 {
      TagTokensOfEmpty();
    } else {
      HashTagMatchesJoin(tokens, ' ');
      HashTagMatchesSkip(' ', Join(tokens, " "));
      TagTokensOfJoined(tokens, FormatTagLine(tokens));
    }
  }

  /** Reading back the `tags` CSV gives the tokens it was formatted from. */
  lemma {:induction false} TagCsvRoundTrip(tokens: seq<string>)
    requires NoDups(tokens) && forall i :: 0 <= i < |tokens| ==> WellFormedTag(tokens[i])
    ensures FormatTagCsv(tokens).None? <==> tokens == []
    ensures FormatTagCsv(tokens).Some? ==> TagTokens(Some(JStr(FormatTagCsv(tokens).value))) == tokens
  {
    if |tokens| > 0 {
      HashTagMatchesJoin(tokens, ',');
      TagTokensOfJoined(tokens, Join(tokens, ","));
    }
  }

  /** Normalising a tag line twice is normalising it once. */
  lemma {:induction false} NormalizeTagLineIdempotent(value: string)
    ensures NormalizeTagLine(NormalizeTagLine(value)) == NormalizeTagLine(value)
  {
    TagLineRoundTrip(TagTokens(Some(JStr(value))));
  }

  lemma {:induction false} SegmentOfBareHashSuffix()
    ensures SegmentToken("a#", false) == Some("#a#")
  {
    var seg := "a#";
    assert seg[0] == 'a' && seg[1] == '#';
    assert !StartsWith(seg, "#");
    TrimNoOuterSpace(seg);
    var core := Trim(seg);
    assert core == seg;
    assert NoSpace(core);
    assert "#" + core == "#a#";
  }

  lemma {:induction false} CandidatesOfBareHashSuffix()
    ensures CandidateTokens("a#", false) == ["#a#"]
  {
    var raw := "a#";
    assert raw[1..] == "#" && "#"[1..] == [];
    assert HashTagMatches("#") == [];
    assert HashTagMatches(raw) == [];
    SplitWithout(raw, ',');
    TrimNoOuterSpace(raw);
    assert NonEmptyTrimmed([raw]) == [raw] + NonEmptyTrimmed([]);
    SegmentOfBareHashSuffix();
    assert SegmentTokens([raw], false) == ["#a#"] + SegmentTokens([], false);
  }

  lemma {:induction false} MatchesOfSpacedToken()
    ensures HashTagMatches(" #a#") == ["#a"]
  {
    HashTagMatchesSkip(' ', "#a#");
    assert "#a#"[1..] == "a#" && "a#"[1..] == "#";
    assert TagRun("#") == 0;
    assert TagRun("a#") == 1;
    assert "#a#"[..2] == "#a" && "#a#"[2..] == "#";
    assert "#"[1..] == [];
    assert HashTagMatches("#") == [];
  }

  lemma {:induction false} CandidatesOfSpacedToken()
    ensures CandidateTokens(" #a#", false) == ["#a"]
  {
    MatchesOfSpacedToken();
    assert WellFormedTag("#a");
    DirectTokensOfMatches(["#a"]);
  }

  lemma {:induction false} TagTokensOfOne(raw: string, token: string)
    requires CandidateTokens(raw, false) == [token]
    ensures TagTokensAsWritten(Some(JStr(raw))) == [token]
  {
    var raws := RawItems(Some(JStr(raw)));
    assert raws == [raw] && raws[1..] == [];
    assert TagCandidates(raws, false) == CandidateTokens(raw, false) + TagCandidates([], false);
    DedupDistinct([token]);
  }

  /** As written, `a#` normalises to ` #a#`, which normalises again to ` #a`: the tag changes on the next save. */
  lemma {:induction false} TagLineUnstableAsWritten()
    ensures NormalizeTagLineAsWritten("a#") == " #a#"
    ensures NormalizeTagLineAsWritten(" #a#") == " #a"
  {
    TagLineOfBareHashSuffix();
    TagLineOfSpacedToken();
  }

  /**
   * The corrected rule only drops what the source's rule would turn into a
   * token holding a second `#`: on every value whose tokens as written are
   * all canonical, both rules give the same tokens.
   */
  lemma {:induction false} TagTokensAgree(value: Option<JValue>)
    requires forall i :: 0 <= i < |TagTokensAsWritten(value)| ==> WellFormedTag(TagTokensAsWritten(value)[i])
    ensures TagTokens(value) == TagTokensAsWritten(value)
  {
    var raws := RawItems(value);
    var written := TagTokensAsWritten(value);
    DedupMembers(TagCandidates(raws, false));
    forall t | t in TagCandidates(raws, false)
      ensures WellFormedTag(t)
    {
      var i :| 0 <= i < |written| && written[i] == t;
    }
    TagCandidatesAgree(raws);
  }

  /** As `a#` shows, the two rules differ exactly where a token as written holds a second `#`. */
  lemma {:induction false} NormalizeTagLineAgrees(value: string)
    requires forall i :: 0 <= i < |TagTokensAsWritten(Some(JStr(value)))| ==> WellFormedTag(TagTokensAsWritten(Some(JStr(value)))[i])
    ensures NormalizeTagLine(value) == NormalizeTagLineAsWritten(value)
  {
    TagTokensAgree(Some(JStr(value)));
  }

  lemma {:induction false} TagCandidatesAgree(raws: seq<string>)
    requires forall t :: t in TagCandidates(raws, false) ==> WellFormedTag(t)
    ensures TagCandidates(raws, true) == TagCandidates(raws, false)
  {
    if raws != [] {
      CandidateTokensAgree(raws[0]);
      TagCandidatesAgree(raws[1..]);
    }
  }

  lemma {:induction false} CandidateTokensAgree(raw: string)
    requires forall t :: t in CandidateTokens(raw, false) ==> WellFormedTag(t)
    ensures CandidateTokens(raw, true) == CandidateTokens(raw, false)
  {
    if |HashTagMatches(raw)| == 0 {
      SegmentTokensAgree(NonEmptyTrimmed(Split(raw, ',')));
    }
  }

  lemma {:induction false} SegmentTokensAgree(segments: seq<string>)
    requires forall t :: t in SegmentTokens(segments, false) ==> WellFormedTag(t)
    ensures SegmentTokens(segments, true) == SegmentTokens(segments, false)
  {
    if segments != [] {
      SegmentTokenAgrees(segments[0]);
      SegmentTokensAgree(segments[1..]);
    }
  }

  /** A segment whose token as written is canonical has no `#` in its core, so the corrected rule keeps it. */
  lemma {:induction false} SegmentTokenAgrees(seg: string)
    requires SegmentToken(seg, false).Some? ==> WellFormedTag(SegmentToken(seg, false).value)
    ensures SegmentToken(seg, true) == SegmentToken(seg, false)
  {
    var core := if StartsWith(seg, "#") then Trim(seg[1..]) else Trim(seg);
    if SegmentToken(seg, false).Some? {
      var t := "#" + core;
      forall j | 0 <= j < |core|
        ensures core[j] != '#'
      {
        assert core[j] == t[j + 1];
      }
    }
  }

  lemma {:induction false} TagLineOfBareHashSuffix()
    ensures NormalizeTagLineAsWritten("a#") == " #a#"
  {
    CandidatesOfBareHashSuffix();
    TagLineOfOne("a#", "#a#");
    assert " " + "#a#" == " #a#";
  }

  lemma {:induction false} TagLineOfSpacedToken()
    ensures NormalizeTagLineAsWritten(" #a#") == " #a"
  {
    CandidatesOfSpacedToken();
    TagLineOfOne(" #a#", "#a");
    assert " " + "#a" == " #a";
  }

  lemma {:induction false} TagLineOfOne(raw: string, token: string)
    requires CandidateTokens(raw, false) == [token]
    ensures NormalizeTagLineAsWritten(raw) == " " + token
  {
    TagTokensOfOne(raw, token);
    assert Join([token], " ") == token;
  }

  /* ---------------------------------------------------------------- images */

  /** What survives trimming and the non-empty filter is trimmed and non-empty. */
  lemma {:induction false} NonEmptyTrimmedMembers(pieces: seq<string>)
    ensures forall x :: x in NonEmptyTrimmed(pieces) ==> CanonicalPath(x)
  {
    if pieces != [] {
      TrimIdempotent(pieces[0]);
      NonEmptyTrimmedMembers(pieces[1..]);
    }
  }

  lemma {:induction false} TakeFacts<T>(xs: seq<T>, n: nat)
    requires NoDups(xs)
    ensures NoDups(Take(xs, n))
    ensures forall x :: x in Take(xs, n) ==> x in xs
  {
    var r := Take(xs, n);
    assert forall i :: 0 <= i < |r| ==> r[i] == xs[i];
  }

  /** `normalizeImagePaths` as a specification: the first eight distinct non-empty trimmed paths, in first-seen order. */
  function CanonicalImagePaths(paths: seq<string>): (r: seq<string>)
    ensures |r| <= MaxImages && NoDups(r)
  {
    var d := Dedup(NonEmptyTrimmed(paths));
    TakeFacts(d, MaxImages);
    Take(d, MaxImages)
  }

  /** Every kept path is trimmed, non-empty, and one of the trimmed inputs. */
  lemma {:induction false} CanonicalImagePathsMembers(paths: seq<string>)
    ensures forall x :: x in CanonicalImagePaths(paths) ==> CanonicalPath(x) && x in NonEmptyTrimmed(paths)
  {
    TakeFacts(Dedup(NonEmptyTrimmed(paths)), MaxImages);
    DedupMembers(NonEmptyTrimmed(paths));
    NonEmptyTrimmedMembers(paths);
  }

  lemma {:induction false} NonEmptyTrimmedOne(x: string)
    ensures NonEmptyTrimmed([x]) == if Trim(x) == [] then [] else [Trim(x)]
  {
    assert NonEmptyTrimmed([x]) == (if Trim(x) == [] then [] else [Trim(x)]) + NonEmptyTrimmed([]);
  }

  lemma {:induction false} NonEmptyTrimmedSnoc(paths: seq<string>, i: nat)
    requires i < |paths|
    ensures NonEmptyTrimmed(paths[..i + 1])
         == NonEmptyTrimmed(paths[..i]) + (if Trim(paths[i]) == [] then [] else [Trim(paths[i])])
  {
    assert paths[..i + 1] == paths[..i] + [paths[i]];
    NonEmptyTrimmedAppend(paths[..i], [paths[i]]);
    NonEmptyTrimmedOne(paths[i]);
  }

  /** Once eight paths are kept, the later ones cannot change the first eight. */
  lemma {:induction false} ImagePathsStop(paths: seq<string>, i: nat)
    requires i <= |paths|
    requires |Dedup(NonEmptyTrimmed(paths[..i]))| == MaxImages
    ensures CanonicalImagePaths(paths) == Dedup(NonEmptyTrimmed(paths[..i]))
  {
    var a, b := paths[..i], paths[i..];
    assert paths == a + b;
    NonEmptyTrimmedAppend(a, b);
    TakeDedupPrefix(NonEmptyTrimmed(a), NonEmptyTrimmed(b), MaxImages);
  }

  lemma {:induction false} ImagePathsStep(paths: seq<string>, j: nat, kept: seq<string>, path: string)
    requires 0 < j <= |paths| && kept == Dedup(NonEmptyTrimmed(paths[..j - 1])) && path == Trim(paths[j - 1])
    ensures Dedup(NonEmptyTrimmed(paths[..j])) == if path == [] || path in kept then kept else kept + [path]
  {
    var a, x := paths[..j - 1], paths[j - 1];
    var ys := if path == [] then [] else [path];
    assert paths[..j] == a + [x];
    NonEmptyTrimmedAppend(a, [x]);
    NonEmptyTrimmedOne(x);
    DedupAppendOne(NonEmptyTrimmed(a), ys, path);
    assert kept + [] == kept;
  }

  /** The paths kept after looking at the first `i` inputs, one trim-and-check step at a time. */
  function KeptPaths(paths: seq<string>, i: nat): seq<string>
    requires i <= |paths|
  {
    if i == 0 then []
    else
      var kept := KeptPaths(paths, i - 1);
      var path := Trim(paths[i - 1]);
      if path == [] || path in kept then kept else kept + [path]
  }

  /** Step by step, the kept paths are the distinct trimmed non-empty inputs so far. */
  lemma {:induction false} KeptPathsDistinct(paths: seq<string>, i: nat)
    requires i <= |paths|
    ensures KeptPaths(paths, i) == Dedup(NonEmptyTrimmed(paths[..i]))
  {
    if i == 0 {
      assert paths[..0] == [];
    } else {
      KeptPathsDistinct(paths, i - 1);
      ImagePathsStep(paths, i, KeptPaths(paths, i - 1), Trim(paths[i - 1]));
    }
  }

  lemma {:induction false} KeptPathsNext(paths: seq<string>, i: nat, kept: seq<string>, path: string)
    requires i < |paths| && kept == KeptPaths(paths, i) && path == Trim(paths[i])
    ensures KeptPaths(paths, i + 1) == if path == [] || path in kept then kept else kept + [path]
  {
  }

  /** The loop may stop after all inputs, or as soon as eight paths are kept. */
  lemma {:induction false} KeptPathsFinal(paths: seq<string>, i: nat)
    requires i <= |paths|
    requires i == |paths| || |KeptPaths(paths, i)| == MaxImages
    requires |KeptPaths(paths, i)| <= MaxImages
    ensures KeptPaths(paths, i) == CanonicalImagePaths(paths)
  {
    KeptPathsDistinct(paths, i);
    if i == |paths| {
      assert paths[..i] == paths;
    } else {
      ImagePathsStop(paths, i);
    }
  }

  /** The loop of `normalizeImagePaths`: trim, skip empty or seen paths, and stop once eight are kept. */
  method NormalizeImagePaths(paths: seq<string>) returns (normalized: seq<string>)
    ensures normalized == CanonicalImagePaths(paths)
  {
    var seen: set<string> := {};
    normalized := [];
    var i := 0;
    while i < |paths|
      invariant 0 <= i <= |paths|
      invariant normalized == KeptPaths(paths, i)
      invariant |normalized| < MaxImages
      invariant forall t :: t in seen <==> t in normalized
    {
      var path := Trim(paths[i]);
      var next := i + 1;
      KeptPathsNext(paths, i, normalized, path);
      if path != [] && path !in seen {
        seen := seen + {path};
        normalized := normalized + [path];
        if |normalized| >= MaxImages {
          KeptPathsFinal(paths, next);
          return;
        }
      }
      i := next;
    }
    KeptPathsFinal(paths, i);
  }

  /** The comma-separated pieces of every raw string. */
  function SplitAll(raws: seq<string>): (r: seq<string>)
    ensures forall p :: p in r ==> ',' !in p
  {
    if raws == [] then [] else Split(raws[0], ',') + SplitAll(raws[1..])
  }

  lemma {:induction false} SplitAllOne(raw: string)
    ensures SplitAll([raw]) == Split(raw, ',')
  {
    var pieces := Split(raw, ',');
    assert SplitAll([raw]) == pieces + SplitAll([]);
    assert pieces + [] == pieces;
  }

  /** `extractImagePaths`: the comma-separated pieces of every string, trimmed, non-empty, then normalised. */
  function ExtractImagePaths(value: Option<JValue>): (r: seq<string>)
    ensures |r| <= MaxImages && NoDups(r)
    ensures forall x :: x in r ==> CanonicalPath(x) && ',' !in x
  {
    var pieces := SplitAll(RawItems(value));
    NonEmptyTrimmedKeepsOut(pieces, ',');
    NonEmptyTrimmedKeepsOut(NonEmptyTrimmed(pieces), ',');
    CanonicalImagePathsMembers(NonEmptyTrimmed(pieces));
    CanonicalImagePaths(NonEmptyTrimmed(pieces))
  }

  /** `formatImageCsv`: the canonical list joined by commas, or nothing when it is empty. */
  function FormatImageCsv(paths: seq<string>): (r: Option<string>)
    ensures r.None? <==> CanonicalImagePaths(paths) == []
  {
    var normalized := CanonicalImagePaths(paths);
    if |normalized| > 0 then Some(Join(normalized, ",")) else None
  }

  /** The `images` property a CSV is written as. */
  function CsvValue(csv: Option<string>): Option<JValue>
  {
    if csv.Some? then Some(JStr(csv.value)) else None
  }

  /** Canonical paths hold no comma when the inputs hold none. */
  lemma {:induction false} CanonicalImagePathsNoComma(paths: seq<string>)
    requires forall p :: p in paths ==> ',' !in p
    ensures forall i :: 0 <= i < |CanonicalImagePaths(paths)| ==> ',' !in CanonicalImagePaths(paths)[i]
  {
    var n := CanonicalImagePaths(paths);
    CanonicalImagePathsMembers(paths);
    NonEmptyTrimmedKeepsOut(paths, ',');
    forall i | 0 <= i < |n|
      ensures ',' !in n[i]
    {
      assert n[i] in n;
    }
  }

  /** Canonical paths are trimmed and non-empty. */
  lemma {:induction false} CanonicalImagePathsTrimmed(paths: seq<string>)
    ensures forall i :: 0 <= i < |CanonicalImagePaths(paths)| ==> CanonicalPath(CanonicalImagePaths(paths)[i])
  {
    var n := CanonicalImagePaths(paths);
    CanonicalImagePathsMembers(paths);
    forall i | 0 <= i < |n|
      ensures CanonicalPath(n[i])
    {
      assert n[i] in n;
    }
  }

  /** A CSV of at most eight distinct, trimmed, comma-free paths reads back as those paths. */
  lemma {:induction false} ExtractImagePathsOfCsv(n: seq<string>)
    requires 0 < |n| <= MaxImages && NoDups(n)
    requires forall i :: 0 <= i < |n| ==> CanonicalPath(n[i]) && ',' !in n[i]
    ensures ExtractImagePaths(Some(JStr(Join(n, ",")))) == n
  {
    ExtractImagePathsOfString(Join(n, ","));
    SplitJoin(n, ',');
    NonEmptyTrimmedFixed(n);
    CanonicalImagePathsOfCanonical(n);
  }

  /** A single string's paths are its comma-separated pieces, trimmed, non-empty and normalised. */
  lemma {:induction false} ExtractImagePathsOfString(csv: string)
    ensures ExtractImagePaths(Some(JStr(csv))) == CanonicalImagePaths(NonEmptyTrimmed(Split(csv, ',')))
  {
    assert RawItems(Some(JStr(csv))) == [csv];
    SplitAllOne(csv);
  }

  /** A list that is already canonical is its own normalisation. */
  lemma {:induction false} CanonicalImagePathsOfCanonical(n: seq<string>)
    requires |n| <= MaxImages && NoDups(n)
    requires forall i :: 0 <= i < |n| ==> CanonicalPath(n[i])
    ensures CanonicalImagePaths(n) == n
  {
    NonEmptyTrimmedFixed(n);
    DedupDistinct(n);
  }

  /** Reading back the `images` CSV gives the canonical list, provided no path holds a comma. */
  lemma {:induction false} ImageCsvRoundTrip(paths: seq<string>)
    requires forall p :: p in paths ==> ',' !in p
    ensures ExtractImagePaths(CsvValue(FormatImageCsv(paths))) == CanonicalImagePaths(paths)
  {
    var n := CanonicalImagePaths(paths);
    if |n| > 0 {
      CanonicalImagePathsNoComma(paths);
      CanonicalImagePathsTrimmed(paths);
      ExtractImagePathsOfCsv(n);
    } else {
      assert SplitAll([]) == [];
      assert NonEmptyTrimmed([]) == [];
    }
  }
}
