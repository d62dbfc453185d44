/**
 * The CJK punctuation auto-pair (`CnPunctuationAutoPairManager`): typing an
 * opening mark inserts its closing mark too, around the selection if there
 * is one.
 */
module CnPunctuation {
  import opened Wrappers
  import opened Editor

  /** `CN_PUNCTUATION_PAIRS[c]`: the closing mark of an opening mark. */
  function Closer(c: char): Option<char>
  {
    match c
    case '“' => Some('”')
    case '‘' => Some('’')
    case '《' => Some('》')
    case '（' => Some('）')
    case '【' => Some('】')
    case '〖' => Some('〗')
    case '〈' => Some('〉')
    case '〔' => Some('〕')
    case '「' => Some('」')
    case '『' => Some('』')
    case '｛' => Some('｝')
    case _ => None
  }

  const Openers: set<char> := {'“', '‘', '《', '（', '【', '〖', '〈', '〔', '「', '『', '｛'}

  /** The openers of the table. */
  lemma {:induction false} OpenersOfTable(c: char)
    ensures Closer(c).Some? <==> c in Openers
  {
  }

  /** The table has eleven openers. */
  lemma {:induction false} OpenersCount()
    ensures |Openers| == 11
  {
  }

  /** No two openers share a closer, and no opener doubles as a closer. */
  lemma {:induction false} ClosersDistinct(a: char, b: char)
    requires Closer(a).Some?
    ensures Closer(b) == Closer(a) ==> a == b
    ensures Closer(Closer(a).value).None?
  {
  }

  /**
   * The input handler, given the setting, the replaced range `from..to`, the
   * typed text and the document: nothing is handled unless the setting is on
   * and a single opening mark was typed. Then the opener and closer are
   * inserted with the cursor between them, or they wrap the selection and
   * the cursor goes after the closer.
   */
  function HandleInput(enabled: bool, from: nat, to: nat, text: string, doc: string): (r: Option<Change>)
    requires from <= to <= |doc|
    ensures r.Some? <==> enabled && |text| == 1 && Closer(text[0]).Some?
    ensures r.Some? && from == to ==> r.value == Change(from, to, text + [Closer(text[0]).value], from + 1)
    ensures r.Some? && from < to ==>
              var ins := text + doc[from..to] + [Closer(text[0]).value];
              r.value == Change(from, to, ins, from + |ins|)
  {
    if !enabled || |text| != 1 || Closer(text[0]).None? then None
    else
      var closeChar := Closer(text[0]).value;
      var selectedText := if from < to then doc[from..to] else "";
      var hasSelection := |selectedText| > 0;
      var insertText := if hasSelection then text + selectedText + [closeChar] else text + [closeChar];
      var cursorPos := if hasSelection then from + |insertText| else from + |text|;
      Some(Change(from, to, insertText, cursorPos))
  }

  /** The inserted text starts with the typed mark, ends with its closer, and holds the selection in between. */
  lemma {:induction false} HandleInputWraps(enabled: bool, from: nat, to: nat, text: string, doc: string)
    requires from <= to <= |doc|
    requires HandleInput(enabled, from, to, text, doc).Some?
    ensures var c := HandleInput(enabled, from, to, text, doc).value;
            && |c.insert| == to - from + 2
            && c.insert[0] == text[0] && c.insert[|c.insert| - 1] == Closer(text[0]).value
            && c.insert[1..|c.insert| - 1] == doc[from..to]
            && c.from == from && c.to == to && from < c.cursor <= from + |c.insert|
  {
    var c := HandleInput(enabled, from, to, text, doc).value;
    if from < to {
      assert c.insert == text + doc[from..to] + [Closer(text[0]).value];
      assert c.insert[1..|c.insert| - 1] == doc[from..to];
    } else {
      assert doc[from..to] == [];
    }
  }
}
