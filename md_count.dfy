/**
 * The character count of the Markdown statistics: front matter is skipped,
 * heading markers are dropped, every number (sign, decimals and a per-cent
 * sign included) counts as one character, and white space and `-` count
 * nothing. Also the front-matter end line of the editor and the 500-character
 * milestones drawn in its gutter.
 */
module MdCount {
  import opened Text

  /* ------------------------------------------------------------ scanning */

  /** How many characters from index `i` on satisfy `p`, in a row. */
  function RunLength(s: string, i: nat, p: char -> bool): (n: nat)
    requires i <= |s|
    ensures i + n <= |s|
    ensures forall k :: i <= k < i + n ==> p(s[k])
    ensures i + n == |s| || !p(s[i + n])
    decreases |s| - i
  {
    if i < |s| && p(s[i]) then 1 + RunLength(s, i + 1, p) else 0
  }

  predicate IsHash(c: char) { c == '#' }

  predicate IsSign(c: char) { c == '+' || c == '-' }

  /**
   * The length of the match of `^\s{0,3}#{1,6}\s+` at the start of a line, 0
   * when there is none: at most three white-space characters, one to six `#`,
   * then at least one white-space character (all of them).
   */
  function HeadingPrefixLength(line: string): (n: nat)
    ensures n <= |line|
  {
    var w := RunLength(line, 0, IsSpace);
    var h := RunLength(line, w, IsHash);
    var sp := RunLength(line, w + h, IsSpace);
    if w <= 3 && 1 <= h <= 6 && 1 <= sp then w + h + sp else 0
  }

  /** `line.replace(/^\s{0,3}#{1,6}\s+/, "")`. */
  function StripHeading(line: string): string
  {
    line[HeadingPrefixLength(line)..]
  }

  /**
   * The length of the match of `\d+(?:\.\d+)?|\.\d+` at index `j`, 0 when none:
   * digits with an optional fraction, or a fraction alone.
   */
  function NumberBodyLength(s: string, j: nat): (n: nat)
    requires j <= |s|
    ensures j + n <= |s|
  {
    var d := RunLength(s, j, IsDigit);
    if d > 0 then
      var k := j + d;
      if k < |s| && s[k] == '.' && RunLength(s, k + 1, IsDigit) > 0 then d + 1 + RunLength(s, k + 1, IsDigit) else d
    else if j < |s| && s[j] == '.' && RunLength(s, j + 1, IsDigit) > 0 then 1 + RunLength(s, j + 1, IsDigit)
    else 0
  }

  /**
   * The length of the match of `[+-]?(?:\d+(?:\.\d+)?|\.\d+)%?` at index `i`, 0
   * when the pattern does not match there.
   */
  function NumberTokenLength(s: string, i: nat): (n: nat)
    requires i <= |s|
    ensures i + n <= |s|
  {
    var sign := if i < |s| && IsSign(s[i]) then 1 else 0;
    var body := NumberBodyLength(s, i + sign);
    if body == 0 then 0
    else
      var j := i + sign + body;
      sign + body + (if j < |s| && s[j] == '%' then 1 else 0)
  }

  /** Every number holds a digit. */
  lemma {:induction false} TokenHasDigit(s: string, i: nat)
    requires i <= |s| && NumberTokenLength(s, i) > 0
    ensures exists k :: i <= k < i + NumberTokenLength(s, i) && IsDigit(s[k])
  {
    var sign := if i < |s| && IsSign(s[i]) then 1 else 0;
    BodyHasDigit(s, i + sign);
  }

  lemma {:induction false} BodyHasDigit(s: string, j: nat)
    requires j <= |s| && NumberBodyLength(s, j) > 0
    ensures exists k :: j <= k < j + NumberBodyLength(s, j) && IsDigit(s[k])
  {
    if RunLength(s, j, IsDigit) > 0 {
      assert IsDigit(s[j]);
    } else {
      assert IsDigit(s[j + 1]);
    }
  }

  /** Counts nothing: white space and `-`. */
  predicate Ignored(c: char)
  {
    IsSpace(c) || c == '-'
  }

  /**
   * The length of `s[i..]` after `.replace(number, "N")` and then
   * `.replace(/[\s-]+/g, "")`: the pattern is tried from left to right, a
   * match counts one, any other character counts one unless it is ignored.
   */
  function CountFrom(s: string, i: nat): (n: nat)
    requires i <= |s|
    decreases |s| - i
  {
    if i == |s| then 0
    else
      var t := NumberTokenLength(s, i);
      if t > 0 then 1 + CountFrom(s, i + t)
      else (if Ignored(s[i]) then 0 else 1) + CountFrom(s, i + 1)
  }

  /** `countLineCharacters`: the count of one line, heading marker dropped. */
  function CountLineCharacters(line: string): nat
  {
    CountFrom(StripHeading(line), 0)
  }

  /** The characters of `s[i..]` that are not ignored. */
  function VisibleFrom(s: string, i: nat): (n: nat)
    requires i <= |s|
    decreases |s| - i
  {
    if i == |s| then 0 else (if Ignored(s[i]) then 0 else 1) + VisibleFrom(s, i + 1)
  }

  /** Without digits there are no numbers, and the count is the characters that are not ignored. */
  lemma {:induction false} CountWithoutDigits(s: string, i: nat)
    requires i <= |s|
    requires forall k :: i <= k < |s| ==> !IsDigit(s[k])
    ensures CountFrom(s, i) == VisibleFrom(s, i)
    decreases |s| - i
  {
    if i < |s| {
      if NumberTokenLength(s, i) > 0 {
        TokenHasDigit(s, i);
        assert false;
      }
      CountWithoutDigits(s, i + 1);
    }
  }

  /** A text of white space and `-` only counts nothing. */
  lemma {:induction false} IgnoredCountsNothing(s: string)
    requires forall k :: 0 <= k < |s| ==> Ignored(s[k])
    ensures CountFrom(s, 0) == 0
  {
    CountWithoutDigits(s, 0);
    VisibleOfIgnored(s, 0);
  }

  lemma {:induction false} VisibleOfIgnored(s: string, i: nat)
    requires i <= |s|
    requires forall k :: i <= k < |s| ==> Ignored(s[k])
    ensures VisibleFrom(s, i) == 0
    decreases |s| - i
  {
    if i < |s| {
      VisibleOfIgnored(s, i + 1);
    }
  }

  /** A number such as `-12.5%` counts as exactly one character. */
  lemma {:induction false} NumberCountsOne(s: string)
    requires s != [] && NumberTokenLength(s, 0) == |s|
    ensures CountFrom(s, 0) == 1
  {
  }

  /** The count never exceeds the number of characters. */
  lemma {:induction false} CountBound(s: string, i: nat)
    requires i <= |s|
    ensures CountFrom(s, i) <= |s| - i
    decreases |s| - i
  {
    if i < |s| {
      var t := NumberTokenLength(s, i);
      if t > 0 {
        CountBound(s, i + t);
      } else {
        CountBound(s, i + 1);
      }
    }
  }

  /** `"#".repeat(n)`. */
  function Hashes(n: nat): (r: string)
    ensures |r| == n && forall k :: 0 <= k < n ==> r[k] == '#'
  {
    if n == 0 then "" else "#" + Hashes(n - 1)
  }

  /** The marker of a heading of level 1 to 6 counts nothing. */
  lemma {:induction false} HeadingMarkerIgnored(level: nat, t: string)
    requires 1 <= level <= 6
    requires t == [] || !IsSpace(t[0])
    ensures CountLineCharacters(Hashes(level) + " " + t) == CountFrom(t, 0)
  {
    var line := Hashes(level) + " " + t;
    HeadingPrefixOf(level, t);
    assert line[level + 1..] == t;
  }

  lemma {:induction false} HeadingPrefixOf(level: nat, t: string)
    requires 1 <= level <= 6
    requires t == [] || !IsSpace(t[0])
    ensures HeadingPrefixLength(Hashes(level) + " " + t) == level + 1
  {
    var line := Hashes(level) + " " + t;
    assert RunLength(line, 0, IsSpace) == 0 by { assert line[0] == '#'; }
    RunOfHashes(line, level);
    RunOfOneSpace(line, level + 1);
  }

  lemma {:induction false} RunOfHashes(line: string, level: nat)
    requires level < |line| && (forall k :: 0 <= k < level ==> line[k] == '#') && line[level] == ' '
    ensures RunLength(line, 0, IsHash) == level
  {
  }

  lemma {:induction false} RunOfOneSpace(line: string, i: nat)
    requires 1 <= i <= |line| && IsSpace(line[i - 1]) && (i == |line| || !IsSpace(line[i]))
    ensures RunLength(line, i - 1, IsSpace) == 1
  {
    assert RunLength(line, i, IsSpace) == 0;
  }

  /* --------------------------------------------------------- front matter */

  /** `replace(/\r\n/g, "\n")`: CRLF pairs become LF, lone CRs stay. */
  function ReplaceCrlf(s: string): (r: string)
    ensures '\r' !in s ==> r == s
    decreases |s|
  {
    if s == [] then []
    else if |s| > 1 && s[0] == '\r' && s[1] == '\n' then "\n" + ReplaceCrlf(s[2..])
    else [s[0]] + ReplaceCrlf(s[1..])
  }

  /** A line that closes or opens front matter: it trims to `---`. */
  predicate IsFence(line: string)
  {
    Trim(line) == "---"
  }

  /** The index of the first fence at or after `from`, or -1. */
  function FirstFence(lines: seq<string>, from: nat): (r: int)
    requires from <= |lines|
    ensures r == -1 || (from <= r < |lines| && IsFence(lines[r]))
    ensures forall k :: from <= k < |lines| && (r == -1 || k < r) ==> !IsFence(lines[k])
    decreases |lines| - from
  {
    if from == |lines| then -1
    else if IsFence(lines[from]) then from
    else FirstFence(lines, from + 1)
  }

  /**
   * `stripFrontmatter`: after CRLF normalisation, when the first line is a
   * fence and a later line is one too, the lines after that later fence;
   * otherwise the whole text.
   */
  function StripFrontmatter(raw: string): string
  {
    var normalized := ReplaceCrlf(raw);
    var lines := Split(normalized, '\n');
    if !IsFence(lines[0]) then normalized
    else
      var close := FirstFence(lines, 1);
      if close < 0 then normalized else Join(lines[close + 1..], "\n")
  }

  /**
   * `getFrontmatterEndLine` over the editor's lines: the 1-based number of the
   * first fence after a fence on line 1, or 0.
   */
  function FrontmatterEndLine(lines: seq<string>): (r: nat)
    ensures r == 0 || (2 <= r <= |lines| && IsFence(lines[0]) && IsFence(lines[r - 1]))
    ensures r > 0 ==> forall k :: 1 <= k < r - 1 ==> !IsFence(lines[k])
    ensures r == 0 && |lines| >= 1 && IsFence(lines[0]) ==> forall k :: 1 <= k < |lines| ==> !IsFence(lines[k])
  {
    if |lines| < 1 || !IsFence(lines[0]) then 0
    else
      var close := FirstFence(lines, 1);
      if close < 0 then 0 else close + 1
  }

  /**
   * The count and the editor agree on where front matter ends: for the lines
   * of a document, stripping front matter leaves exactly the lines after
   * `FrontmatterEndLine`.
   */
  lemma {:induction false} StripMatchesEndLine(lines: seq<string>)
    requires |lines| >= 1
    requires forall k :: 0 <= k < |lines| ==> '\n' !in lines[k] && '\r' !in lines[k]
    ensures var e := FrontmatterEndLine(lines);
            StripFrontmatter(Join(lines, "\n")) == if e > 0 then Join(lines[e..], "\n") else Join(lines, "\n")
  {
    var text := Join(lines, "\n");
    NoCrInJoin(lines);
    SplitJoin(lines, '\n');
  }

  lemma {:induction false} NoCrInJoin(lines: seq<string>)
    requires forall k :: 0 <= k < |lines| ==> '\r' !in lines[k]
    ensures '\r' !in Join(lines, "\n")
  {
    if |lines| > 1 {
      NoCrInJoin(lines[1..]);
    }
  }

  /**
   * `countMarkdownCharacters`: front matter stripped, each line's heading
   * marker dropped, the lines joined with nothing between them, then counted.
   */
  function CountMarkdownCharacters(raw: string): nat
  {
    var lines := Split(StripFrontmatter(raw), '\n');
    CountFrom(Join(StripHeadings(lines), ""), 0)
  }

  function StripHeadings(lines: seq<string>): (r: seq<string>)
    ensures |r| == |lines| && forall k :: 0 <= k < |lines| ==> r[k] == StripHeading(lines[k])
  {
    if lines == [] then [] else [StripHeading(lines[0])] + StripHeadings(lines[1..])
  }

  /** Front matter counts nothing: a document counts as its lines after the closing fence. */
  lemma {:induction false} FrontmatterCountsNothing(lines: seq<string>)
    requires |lines| >= 1
    requires forall k :: 0 <= k < |lines| ==> '\n' !in lines[k] && '\r' !in lines[k]
    requires FrontmatterEndLine(lines) > 0
    ensures var rest := lines[FrontmatterEndLine(lines)..];
            CountMarkdownCharacters(Join(lines, "\n")) == CountFrom(Join(StripHeadings(Split(Join(rest, "\n"), '\n')), ""), 0)
  {
    StripMatchesEndLine(lines);
  }

  /* ----------------------------------------------------------- milestones */

  /** A gutter marker: the line whose text reached the milestone, the line it is drawn on, its label. */
  datatype Marker = Marker(lineNo: nat, targetLineNo: nat, milestone: nat)

  /**
   * What each line adds to the running count, in order: nothing inside front
   * matter (lines 1 to `fmEnd`), its count by `countLine` otherwise.
   */
  function Contributions(lines: seq<string>, fmEnd: nat, countLine: string -> nat): (r: seq<nat>)
    ensures |r| == |lines|
    ensures forall k :: 0 <= k < |lines| ==> r[k] == if fmEnd > 0 && k < fmEnd then 0 else countLine(lines[k])
  {
    seq(|lines|, k requires 0 <= k < |lines| => if fmEnd > 0 && k < fmEnd then 0 else countLine(lines[k]))
  }

  /** The running count after the first `n` lines. */
  function Cumulative(counts: seq<nat>, n: nat): nat
    requires n <= |counts|
  {
    if n == 0 then 0 else Cumulative(counts, n - 1) + counts[n - 1]
  }

  /** Line `n` (1-based) crosses a multiple of 500. */
  predicate Crosses(counts: seq<nat>, n: nat)
    requires 1 <= n <= |counts|
  {
    Cumulative(counts, n) / 500 > Cumulative(counts, n - 1) / 500
  }

  /**
   * The markers of the first `n` lines: one on every line that crosses a
   * multiple of 500, labelled with the largest multiple reached and drawn on
   * the next line (on the line itself when it is the last).
   */
  function MilestonesUpTo(counts: seq<nat>, n: nat): seq<Marker>
    requires n <= |counts|
  {
    if n == 0 then []
    else
      MilestonesUpTo(counts, n - 1)
      + (if Crosses(counts, n)
         then [Marker(n, if n < |counts| then n + 1 else n, Cumulative(counts, n) / 500 * 500)]
         else [])
  }

  /**
   * `buildLineMilestoneMarkers` over the editor's lines, each line counted by
   * `countLineCharacters`.
   */
  method BuildMilestoneMarkers(lines: seq<string>) returns (markers: seq<Marker>)
    ensures markers == MilestonesUpTo(Contributions(lines, FrontmatterEndLine(lines), CountLineCharacters), |lines|)
  {
    markers := MilestoneLoop(lines, FrontmatterEndLine(lines), CountLineCharacters);
  }

  /**
   * The milestone loop: the front-matter lines (1 to `fmEnd`) are skipped,
   * each other line's count is added, and when the total reaches the next
   * milestone the milestones are stepped past it and the last one reached
   * labels a marker.
   */
  method MilestoneLoop(lines: seq<string>, fmEnd: nat, countLine: string -> nat) returns (markers: seq<Marker>)
    ensures markers == MilestonesUpTo(Contributions(lines, fmEnd, countLine), |lines|)
  {
    markers := [];
    if |lines| == 0 {
      return;
    }
    ghost var counts := Contributions(lines, fmEnd, countLine);
    var cumulative := 0;
    var nextMilestone := 500;
    var lineNo := 1;
    while lineNo <= |lines|
      invariant 1 <= lineNo <= |lines| + 1
      invariant cumulative == Cumulative(counts, lineNo - 1)
      invariant NextMilestone(cumulative, nextMilestone)
      invariant markers == MilestonesUpTo(counts, lineNo - 1)
    {
      if fmEnd > 0 && lineNo <= fmEnd {
        LineWithoutMarker(counts, lineNo);
        lineNo := lineNo + 1;
        continue;
      }
      var previous := cumulative;
      cumulative := cumulative + countLine(lines[lineNo - 1]);
      assert cumulative == Cumulative(counts, lineNo);
      if cumulative < nextMilestone {
        StepUnchanged(previous, cumulative, nextMilestone);
        LineWithoutMarker(counts, lineNo);
        lineNo := lineNo + 1;
        continue;
      }
      var reachedMilestone;
      reachedMilestone, nextMilestone := StepPastMilestones(cumulative, nextMilestone);
      StepReached(previous, cumulative, reachedMilestone);
      var targetLineNo := if lineNo < |lines| then lineNo + 1 else lineNo;
      LineWithMarker(counts, lineNo, reachedMilestone);
      markers := markers + [Marker(lineNo, targetLineNo, reachedMilestone)];
      lineNo := lineNo + 1;
    }
  }

  /**
   * The inner loop: milestones are stepped by 500 while the total has reached
   * them; `reached` is the last one passed and `after` the next one ahead.
   */
  method StepPastMilestones(cumulative: nat, next: nat) returns (reached: nat, after: nat)
    requires next % 500 == 0 && 500 <= next <= cumulative
    ensures reached % 500 == 0 && next <= reached <= cumulative < reached + 500
    ensures after == reached + 500
  {
    reached := next;
    after := next;
    ghost var steps: nat := 0;
    while cumulative >= after
      invariant after == next + 500 * steps && next <= reached <= cumulative && after <= cumulative + 500
      invariant if steps == 0 then reached == after else reached + 500 == after
      decreases cumulative + 500 - after
    {
      reached := after;
      after := after + 500;
      steps := steps + 1;
    }
    StepMultiple(next, if steps == 0 then 0 else steps - 1);
  }

  /** Stepping by 500 from a multiple of 500 stays on multiples of 500. */
  lemma {:induction false} StepMultiple(next: nat, k: nat)
    requires next % 500 == 0
    ensures (next + 500 * k) % 500 == 0
  {
    var q := next / 500;
    assert next == 500 * q;
    assert next + 500 * k == 500 * (q + k);
  }

  /** `next` is the first multiple of 500 above `cumulative`. */
  predicate NextMilestone(cumulative: nat, next: nat)
  {
    next % 500 == 0 && cumulative < next <= cumulative + 500
  }

  lemma {:induction false} LineWithoutMarker(counts: seq<nat>, n: nat)
    requires 1 <= n <= |counts|
    requires Cumulative(counts, n) / 500 == Cumulative(counts, n - 1) / 500
    ensures MilestonesUpTo(counts, n) == MilestonesUpTo(counts, n - 1)
  {
  }

  lemma {:induction false} LineWithMarker(counts: seq<nat>, n: nat, reached: nat)
    requires 1 <= n <= |counts|
    requires Cumulative(counts, n) / 500 > Cumulative(counts, n - 1) / 500
    requires reached == Cumulative(counts, n) / 500 * 500
    ensures MilestonesUpTo(counts, n)
            == MilestonesUpTo(counts, n - 1) + [Marker(n, if n < |counts| then n + 1 else n, reached)]
  {
  }

  lemma {:induction false} StepUnchanged(previous: nat, cumulative: nat, next: nat)
    requires previous <= cumulative && NextMilestone(previous, next) && cumulative < next
    ensures cumulative / 500 == previous / 500
  {
  }

  lemma {:induction false} StepReached(previous: nat, cumulative: nat, reached: nat)
    requires reached % 500 == 0 && previous < reached <= cumulative < reached + 500
    ensures cumulative / 500 > previous / 500
    ensures reached == cumulative / 500 * 500
    ensures NextMilestone(cumulative, reached + 500)
  {
  }

  lemma {:induction false} CumulativeMonotone(counts: seq<nat>, m: nat, n: nat)
    requires m <= n <= |counts|
    ensures Cumulative(counts, m) <= Cumulative(counts, n)
    decreases n - m
  {
    if m < n {
      CumulativeMonotone(counts, m, n - 1);
    }
  }

  /**
   * A marker's facts: a positive multiple of 500, not reached before its line
   * and reached on it, so the line adds something.
   */
  predicate MarkerSound(counts: seq<nat>, m: Marker)
  {
    && 1 <= m.lineNo <= |counts|
    && m.milestone % 500 == 0 && m.milestone >= 500
    && Cumulative(counts, m.lineNo - 1) < m.milestone <= Cumulative(counts, m.lineNo)
    && counts[m.lineNo - 1] > 0
    && m.targetLineNo == (if m.lineNo < |counts| then m.lineNo + 1 else m.lineNo)
  }

  /** Every marker is sound and on one of the first `n` lines. */
  predicate AllSound(counts: seq<nat>, ms: seq<Marker>, n: nat)
  {
    forall i :: 0 <= i < |ms| ==> MarkerSound(counts, ms[i]) && ms[i].lineNo <= n
  }

  /** Lines and labels strictly increase along the markers. */
  predicate Increasing(ms: seq<Marker>)
  {
    forall i, j :: 0 <= i < j < |ms| ==> ms[i].lineNo < ms[j].lineNo && ms[i].milestone < ms[j].milestone
  }

  /**
   * The markers are sound, and their lines and labels strictly increase: each
   * marker's label is a new multiple of 500, never one shown before.
   */
  lemma {:induction false} MilestonesIncrease(counts: seq<nat>, n: nat)
    requires n <= |counts|
    ensures AllSound(counts, MilestonesUpTo(counts, n), n) && Increasing(MilestonesUpTo(counts, n))
  {
    if n > 0 {
      MilestonesIncrease(counts, n - 1);
      var before := MilestonesUpTo(counts, n - 1);
      assert AllSound(counts, before, n - 1);
      if Crosses(counts, n) {
        var c := Cumulative(counts, n);
        var m := Marker(n, if n < |counts| then n + 1 else n, c / 500 * 500);
        assert MilestonesUpTo(counts, n) == before + [m];
        CrossedMilestone(Cumulative(counts, n - 1), c);
        AppendMarker(counts, n, before, c / 500 * 500);
      }
    }
  }

  /**
   * The marker of a line that reaches a new multiple of 500 extends sound,
   * increasing markers.
   */
  lemma {:induction false} AppendMarker(counts: seq<nat>, n: nat, before: seq<Marker>, milestone: nat)
    requires 1 <= n <= |counts|
    requires milestone % 500 == 0 && milestone >= 500 && Cumulative(counts, n - 1) < milestone <= Cumulative(counts, n)
    requires AllSound(counts, before, n - 1) && Increasing(before)
    ensures var m := Marker(n, if n < |counts| then n + 1 else n, milestone);
            AllSound(counts, before + [m], n) && Increasing(before + [m])
  {
    var m := Marker(n, if n < |counts| then n + 1 else n, milestone);
    assert MarkerSound(counts, m);
    var ms := before + [m];
    forall i | 0 <= i < |ms|
      ensures MarkerSound(counts, ms[i]) && ms[i].lineNo <= n
    {
      if i < |before| {
        assert ms[i] == before[i];
      }
    }
    forall i, j | 0 <= i < j < |ms|
      ensures ms[i].lineNo < ms[j].lineNo && ms[i].milestone < ms[j].milestone
    {
      assert ms[i] == before[i];
      if j == |before| {
        assert MarkerSound(counts, before[i]) && before[i].lineNo <= n - 1;
        CumulativeMonotone(counts, before[i].lineNo, n - 1);
      } else {
        assert ms[j] == before[j];
      }
    }
  }

  /** No marker is drawn for a line of front matter. */
  lemma {:induction false} MarkersAfterFrontmatter(lines: seq<string>)
    ensures var fmEnd := FrontmatterEndLine(lines);
            var ms := MilestonesUpTo(Contributions(lines, fmEnd, CountLineCharacters), |lines|);
            forall i :: 0 <= i < |ms| ==> fmEnd == 0 || ms[i].lineNo > fmEnd
  {
    var fmEnd := FrontmatterEndLine(lines);
    var counts := Contributions(lines, fmEnd, CountLineCharacters);
    MilestonesIncrease(counts, |lines|);
  }

  lemma {:induction false} CrossedMilestone(p: nat, c: nat)
    requires c / 500 > p / 500
    ensures var m := c / 500 * 500;
            m % 500 == 0 && m >= 500 && p < m <= c
  {
  }
}
