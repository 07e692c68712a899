/**
 * The note editor: the Markdown toolbar's text splice and selection shift,
 * the word and character counts, and the autosave guard.
 *
 * Strings are sequences of Unicode scalar values, one `char` each, and selection
 * offsets count those. The browser counts UTF-16 code units instead; the two agree
 * on text inside the Basic Multilingual Plane.
 */
module NoteCard {
  import opened Wrappers
  import JsString

  // ---------------------------------------------------------------------------
  // insertMarkdown

  /** `content.substring(0, start) + before + content.substring(start, end) + after
      + content.substring(end)`. */
  function Splice(content: string, start: int, end: int, before: string, after: string): string {
    JsString.Substring(content, 0, start) + before + JsString.Substring(content, start, end) + after
    + JsString.Substring(content, end, |content|)
  }

  /** A selection as a text area holds it: ordered and inside the text. */
  predicate SelectionIn(content: string, start: int, end: int) {
    0 <= start <= end <= |content|
  }

  /** The splice wraps the selected text in `before` and `after` and keeps the rest, so the
      text grows by exactly the inserted markers. */
  lemma SpliceWraps(content: string, start: int, end: int, before: string, after: string)
    requires SelectionIn(content, start, end)
    ensures Splice(content, start, end, before, after)
            == content[..start] + before + content[start..end] + after + content[end..]
    ensures |Splice(content, start, end, before, after)| == |content| + |before| + |after|
  {
  }

  /** The selection the editor restores, shifted by `before`, covers exactly the text that was
      selected; and removing the two markers gives the original text back. */
  lemma SpliceSelectionAndInverse(content: string, start: int, end: int, before: string, after: string)
    requires SelectionIn(content, start, end)
    ensures var s := Splice(content, start, end, before, after);
      && s[start + |before|..end + |before|] == content[start..end]
      && s[start..start + |before|] == before
      && s[end + |before|..end + |before| + |after|] == after
      && s[..start] + s[start + |before|..end + |before|] + s[end + |before| + |after|..] == content
  {
    SpliceWraps(content, start, end, before, after);
    var a, b, c := content[..start], content[start..end], content[end..];
    FiveParts(a, before, b, after, c);
    ThreeParts(content, start, end);
  }

  lemma ThreeParts(s: string, i: int, j: int)
    requires 0 <= i <= j <= |s|
    ensures s[..i] + s[i..j] + s[j..] == s
  {
  }

  /** The five parts of a concatenation are found back at their offsets. */
  lemma FiveParts(a: string, x: string, b: string, y: string, c: string)
    ensures var s := a + x + b + y + c;
      var i, j, k, l := |a|, |a| + |x|, |a| + |x| + |b|, |a| + |x| + |b| + |y|;
      && s[..i] == a && s[i..j] == x && s[j..k] == b && s[k..l] == y && s[l..] == c
      && s[..i] + s[j..k] + s[l..] == a + b + c
  {
    var s := a + x + b + y + c;
    var i, j, k, l := |a|, |a| + |x|, |a| + |x| + |b|, |a| + |x| + |b| + |y|;
    assert s[..i] == a;
    assert s[i..j] == x;
    assert s[j..k] == b;
    assert s[k..l] == y;
    assert s[l..] == c;
  }

  /** A toolbar button: the markers it puts around the selection. */
  datatype ToolbarAction = ToolbarAction(name: string, before: string, after: string)

  const Toolbar: seq<ToolbarAction> := [
    ToolbarAction("Bold", "**", "**"),
    ToolbarAction("Italic", "*", "*"),
    ToolbarAction("Underline", "<u>", "</u>"),
    ToolbarAction("Strikethrough", "~~", "~~"),
    ToolbarAction("Bullet List", "\n- ", ""),
    ToolbarAction("Numbered List", "\n1. ", ""),
    ToolbarAction("Quote", "\n> ", ""),
    ToolbarAction("Link", "[", "](url)"),
    ToolbarAction("Image", "![alt](", ")"),
    ToolbarAction("Code Block", "``````", "")
  ]

  // ---------------------------------------------------------------------------
  // countWords: `text.trim().split(/\s+/).filter(Boolean).length`

  /** The index of the first `\s` character, or `|s|` when there is none. */
  function FirstSpace(s: string): (i: nat)
    ensures i <= |s| && (i < |s| ==> JsString.IsSpace(s[i]))
    ensures forall k :: 0 <= k < i ==> !JsString.IsSpace(s[k])
  {
    if s == [] || JsString.IsSpace(s[0]) then 0 else 1 + FirstSpace(s[1..])
  }

  /** `s.split(/\s+/)`: the pieces between maximal runs of `\s`, with an empty piece before a
      leading run and after a trailing one. */
  function SplitWs(s: string): (r: seq<string>)
    ensures |r| >= 1
    decreases |s|
  {
    var i := FirstSpace(s);
    if i == |s| then [s]
    else
      var rest := JsString.TrimStart(s[i..]);
      assert |rest| < |s[i..]|;
      [s[..i]] + SplitWs(rest)
  }

  /** `filter(Boolean)`: the non-empty pieces. */
  function NonEmpty(pieces: seq<string>): (r: seq<string>)
    ensures forall p :: p in r <==> p in pieces && p != ""
  {
    if pieces == [] then []
    else (if pieces[0] != "" then [pieces[0]] else []) + NonEmpty(pieces[1..])
  }

  function CountWords(text: string): nat {
    |NonEmpty(SplitWs(JsString.Trim(text)))|
  }

  /** The number of maximal runs of non-`\s` characters in `s`, given whether the character
      before `s` is `\s` (or absent). */
  function RunStarts(s: string, afterSpace: bool): nat
    decreases |s|
  {
    if s == [] then 0
    else (if afterSpace && !JsString.IsSpace(s[0]) then 1 else 0) + RunStarts(s[1..], JsString.IsSpace(s[0]))
  }

  /** The words of `s`: its maximal runs of non-`\s` characters. */
  function Words(s: string): nat {
    RunStarts(s, true)
  }

  predicate AllSpace(s: string) {
    forall k :: 0 <= k < |s| ==> JsString.IsSpace(s[k])
  }

  lemma {:induction false} RunStartsConcat(p: string, q: string, afterSpace: bool)
    ensures RunStarts(p + q, afterSpace)
            == RunStarts(p, afterSpace) + RunStarts(q, if p == [] then afterSpace else JsString.IsSpace(p[|p| - 1]))
    decreases |p|
  {
    if p == [] {
      assert p + q == q;
    } else {
      assert (p + q)[0] == p[0] && (p + q)[1..] == p[1..] + q;
      RunStartsConcat(p[1..], q, JsString.IsSpace(p[0]));
    }
  }

  lemma {:induction false} RunStartsAllSpace(s: string, afterSpace: bool)
    requires AllSpace(s)
    ensures RunStarts(s, afterSpace) == 0
    decreases |s|
  {
    if s != [] {
      RunStartsAllSpace(s[1..], true);
    }
  }

  lemma {:induction false} RunStartsNoSpace(s: string, afterSpace: bool)
    requires NoSpace(s)
    ensures RunStarts(s, afterSpace) == if s != [] && afterSpace then 1 else 0
    decreases |s|
  {
    if s != [] {
      RunStartsNoSpace(s[1..], false);
    }
  }

  /** Splitting on runs of `\s` and dropping the empty pieces leaves one piece per word. */
  lemma {:induction false} SplitWsCountsWords(s: string)
    ensures |NonEmpty(SplitWs(s))| == Words(s)
    decreases |s|
  {
    var i := FirstSpace(s);
    if i == |s| {
      RunStartsNoSpace(s, true);
    } else {
      var rest := JsString.TrimStart(s[i..]);
      SplitWsCountsWords(rest);
      PiecesStep(s);
      WordsStep(s);
    }
  }

  /** The first piece, then the pieces after the first run of `\s`. */
  lemma PiecesStep(s: string)
    requires FirstSpace(s) < |s|
    ensures var i := FirstSpace(s);
      |NonEmpty(SplitWs(s))| == (if i > 0 then 1 else 0) + |NonEmpty(SplitWs(JsString.TrimStart(s[i..])))|
  {
    var i := FirstSpace(s);
    var rest := JsString.TrimStart(s[i..]);
    var pieces := SplitWs(s);
    assert pieces == [s[..i]] + SplitWs(rest);
    assert pieces[0] == s[..i] && pieces[1..] == SplitWs(rest);
  }

  /** The first word, if the text starts with one, then the words after the first run of `\s`. */
  lemma WordsStep(s: string)
    requires FirstSpace(s) < |s|
    ensures var i := FirstSpace(s);
      Words(s) == (if i > 0 then 1 else 0) + Words(JsString.TrimStart(s[i..]))
  {
    var i := FirstSpace(s);
    var rest := JsString.TrimStart(s[i..]);
    var k := |s[i..]| - |rest|;
    RunThenRest(s[i..]);
    PrefixNoSpace(s, i);
    SplitAt(s, i);
    WordRunRest(s, s[..i], s[i..][..k], rest);
  }

  /** A text that starts with `\s` is a non-empty run of `\s` followed by what `trimStart`
      leaves. */
  lemma RunThenRest(tail: string)
    requires tail != [] && JsString.IsSpace(tail[0])
    ensures var k := |tail| - |JsString.TrimStart(tail)|;
      k > 0 && AllSpace(tail[..k]) && tail == tail[..k] + JsString.TrimStart(tail)
  {
    var rest := JsString.TrimStart(tail);
    var k := |tail| - |rest|;
    assert rest == tail[k..];
    assert tail == tail[..k] + tail[k..];
  }

  lemma SplitAt(s: string, i: nat)
    requires i <= |s|
    ensures s == s[..i] + s[i..]
  {
  }

  predicate NoSpace(s: string) {
    forall k :: 0 <= k < |s| ==> !JsString.IsSpace(s[k])
  }

  lemma PrefixNoSpace(s: string, i: nat)
    requires i == FirstSpace(s) < |s|
    ensures NoSpace(s[..i])
  {
    forall k | 0 <= k < i
      ensures !JsString.IsSpace(s[..i][k])
    {
      assert s[..i][k] == s[k];
    }
  }

  lemma WordRunRest(s: string, word: string, run: string, rest: string)
    requires NoSpace(word) && run != [] && AllSpace(run)
    requires s == word + (run + rest)
    ensures Words(s) == (if word != [] then 1 else 0) + Words(rest)
  {
    var b := if word == [] then true else JsString.IsSpace(word[|word| - 1]);
    RunStartsConcat(word, run + rest, true);
    RunStartsNoSpace(word, true);
    RunStartsConcat(run, rest, b);
    RunStartsAllSpace(run, b);
  }

  /** Leading `\s` does not change the words. */
  lemma TrimStartKeepsWords(s: string)
    ensures Words(JsString.TrimStart(s)) == Words(s)
  {
    var front := JsString.TrimStart(s);
    var lead := s[..|s| - |front|];
    assert s == lead + front;
    assert AllSpace(lead);
    RunStartsConcat(lead, front, true);
    RunStartsAllSpace(lead, true);
  }

  /** Trailing `\s` does not change the words. */
  lemma TrimEndKeepsWords(s: string)
    ensures Words(JsString.TrimEnd(s)) == Words(s)
  {
    var t := JsString.TrimEnd(s);
    var trail := s[|t|..];
    assert s == t + trail;
    assert AllSpace(trail);
    RunStartsConcat(t, trail, true);
    RunStartsAllSpace(trail, if t == [] then true else JsString.IsSpace(t[|t| - 1]));
  }

  /** Surrounding `\s` does not change the words. */
  lemma TrimKeepsWords(s: string)
    ensures Words(JsString.Trim(s)) == Words(s)
  {
    TrimStartKeepsWords(s);
    TrimEndKeepsWords(JsString.TrimStart(s));
  }

  /** `countWords` counts the maximal runs of non-`\s` characters. */
  lemma CountWordsIsWords(text: string)
    ensures CountWords(text) == Words(text)
  {
    SplitWsCountsWords(JsString.Trim(text));
    TrimKeepsWords(text);
  }

  /** A text has no words exactly when it is empty or all `\s`. */
  lemma {:induction false} NoWordsIffAllSpace(s: string, afterSpace: bool)
    ensures RunStarts(s, afterSpace) == 0 <==> AllSpace(s) || (!afterSpace && AllSpace(s[FirstSpace(s)..]) && s != [])
    decreases |s|
  {
    if s != [] {
      NoWordsIffAllSpace(s[1..], JsString.IsSpace(s[0]));
      var i := FirstSpace(s);
      if !JsString.IsSpace(s[0]) {
        assert i >= 1 && FirstSpace(s[1..]) == i - 1 && s[1..][i - 1..] == s[i..];
      } else {
        assert i == 0;
        assert AllSpace(s) <==> AllSpace(s[1..]);
      }
    }
  }

  lemma CountWordsZeroIffBlank(text: string)
    ensures CountWords(text) == 0 <==> AllSpace(text)
  {
    CountWordsIsWords(text);
    NoWordsIffAllSpace(text, true);
  }

  // ---------------------------------------------------------------------------
  // The editor component

  /** The component's state for one note: the stored `note.title`/`note.content`, the edited
      `title` and `content`, whether the text area is mounted, its selection, and the selection
      the pending `setTimeout` will restore. */
  class Editor {
    const noteTitle: string
    const noteContent: string
    var title: string
    var content: string
    var hasTextarea: bool
    var selectionStart: int
    var selectionEnd: int
    var pendingSelection: Option<(int, int)>

    ghost predicate Valid()
      reads this
    {
      SelectionIn(content, selectionStart, selectionEnd)
    }

    /** The editor opens with the note's own title and content. */
    constructor (noteTitle: string, noteContent: string, hasTextarea: bool)
      ensures Valid()
      ensures this.noteTitle == noteTitle && this.noteContent == noteContent
      ensures title == noteTitle && content == noteContent && this.hasTextarea == hasTextarea
      ensures selectionStart == selectionEnd == 0 && pendingSelection.None?
    {
      this.noteTitle, this.noteContent := noteTitle, noteContent;
      title, content := noteTitle, noteContent;
      this.hasTextarea := hasTextarea;
      selectionStart, selectionEnd := 0, 0;
      pendingSelection := None;
    }

    /** `insertMarkdown(before, after)`; an undefined `after` defaults to `before`. */
    method InsertMarkdown(before: string, after: Option<string>)
      requires Valid()
      modifies this`content, this`pendingSelection
      ensures Valid()
      ensures !hasTextarea ==> content == old(content) && pendingSelection == old(pendingSelection)
      ensures hasTextarea ==>
                && content == Splice(old(content), selectionStart, selectionEnd, before,
                                     if after.Some? then after.value else before)
                && pendingSelection == Some((selectionStart + |before|, selectionEnd + |before|))
    {
      if !hasTextarea {
        return;
      }
      var close := after.GetOr(before);
      var start, end := selectionStart, selectionEnd;
      var newText := Splice(content, start, end, before, close);
      SpliceWraps(content, start, end, before, close);
      content := newText;
      pendingSelection := Some((start + |before|, end + |before|));
    }

    /** `countWords(content)`. */
    function WordCount(): (r: nat)
      reads this
      ensures r == Words(content)
    {
      CountWordsIsWords(content);
      CountWords(content)
    }

    /** The condition the autosave timer checks before saving. */
    predicate AutosaveDue()
      reads this
    {
      title != noteTitle || content != noteContent
    }

    /** A toolbar button's `onClick`: `insertMarkdown(before, after)` with the button's markers.
        On a mounted text area the text always changes; when it was the stored note's text, the
        next autosave check is due. */
    method PressToolbar(action: ToolbarAction)
      requires Valid() && action in Toolbar
      modifies this`content, this`pendingSelection
      ensures Valid()
      ensures !hasTextarea ==> content == old(content) && pendingSelection == old(pendingSelection)
      ensures hasTextarea ==>
                && content == Splice(old(content), selectionStart, selectionEnd, action.before, action.after)
                && content != old(content)
      ensures hasTextarea && old(content) == noteContent ==> AutosaveDue()
    {
      InsertMarkdown(action.before, Some(action.after));
      if hasTextarea {
        ToolbarInsertionTriggersAutosave(old(content), selectionStart, selectionEnd, action);
      }
    }
  }

  /** Every toolbar button inserts something, so its insertion changes the text. */
  lemma ToolbarInsertionTriggersAutosave(content: string, start: int, end: int, action: ToolbarAction)
    requires SelectionIn(content, start, end) && action in Toolbar
    ensures Splice(content, start, end, action.before, action.after) != content
  {
    SpliceWraps(content, start, end, action.before, action.after);
  }

  /** An insertion can also bring an edited text back to the stored one: after the stored
      `**x**` was edited to `x`, Bold around `x` restores it, and the guard then finds nothing
      to save. */
  lemma ToolbarInsertionCanRestoreStoredText()
    ensures var bold := Toolbar[0];
      && bold.name == "Bold"
      && "x" != "**x**"
      && Splice("x", 0, 1, bold.before, bold.after) == "**x**"
  {
  }
}
