/**
 * The inline board marker of archive introductions: splitting a text at
 * "[[spelplan]]" to place the tactics board
 * (`src/components/archive/archive-tactics-panel.tsx`), stripping it for the
 * preview, and inserting headings or the marker at the editor's selection
 * (`src/components/admin/archive-hub-manager.tsx`).
 */
module BoardMarker {
  import opened Wrappers
  import opened Text

  const Marker := "[[spelplan]]"

  datatype SplitResult = SplitResult(before: string, after: string, hasMarker: bool)

  /** `(markdown ?? "").replace(/\r\n/g, "\n")`. */
  function NormalizedSource(markdown: Option<string>): string {
    ReplaceAll(markdown.GetOr(""), "\r\n", "\n")
  }

  /** A blank text cannot hold the marker, whose first character is not white space. */
  lemma BlankHasNoMarker(s: string)
    requires IsBlank(s)
    ensures !Contains(s, Marker)
  {
    forall j ensures !IsAt(s, Marker, j) {
      if 0 <= j && j + |Marker| <= |s| {
        assert s[j..j + |Marker|][0] == s[j];
        assert IsSpace(s[j]);
      }
    }
  }

  /** A prefix that ends before the first marker holds no marker. */
  lemma PrefixBeforeFirstHasNoMarker(s: string, i: nat)
    requires IndexOf(s, Marker) == Some(i)
    ensures !Contains(s[..i], Marker)
    ensures RemoveAll(s[..i], Marker) == s[..i]
  {
    var p := s[..i];
    forall j | 0 <= j && j + |Marker| <= |p| ensures !IsAt(p, Marker, j) {
      assert p[j..j + |Marker|] == s[j..j + |Marker|];
      assert !IsAt(s, Marker, j);
    }
    RemoveAbsent(p, Marker);
  }

  /** The split of an already normalised text. */
  function SplitSource(source: string): (r: SplitResult)
    ensures IsBlank(source) ==> r == SplitResult("", "", false)
    ensures r.hasMarker <==> Contains(source, Marker)
    ensures !r.hasMarker ==> r.before == Trim(source) && r.after == ""
    ensures r.hasMarker ==>
      && r.before == Trim(source[..IndexOf(source, Marker).value])
      && r.after == Trim(RemoveAll(source[IndexOf(source, Marker).value + |Marker|..], Marker))
  {
    if IsBlank(source) then
      BlankHasNoMarker(source);
      SplitResult("", "", false)
    else
      match IndexOf(source, Marker)
      case None => UnmarkedSplit(source)
      case Some(i) => MarkedSplit(source, i)
  }

  /** No marker: the whole text, with (no) markers removed, trimmed, before the board. */
  function UnmarkedSplit(source: string): (r: SplitResult)
    requires !Contains(source, Marker)
    ensures r == SplitResult(Trim(source), "", false)
  {
    RemoveAbsent(source, Marker);
    SplitResult(Trim(RemoveAll(source, Marker)), "", false)
  }

  /** A first marker at `i`: the trimmed text before it, and the trimmed rest without markers. */
  function MarkedSplit(source: string, i: nat): (r: SplitResult)
    requires IndexOf(source, Marker) == Some(i)
    ensures i + |Marker| <= |source|
    ensures r == SplitResult(Trim(source[..i]), Trim(RemoveAll(source[i + |Marker|..], Marker)), true)
  {
    PrefixBeforeFirstHasNoMarker(source, i);
    SplitResult(Trim(RemoveAll(source[..i], Marker)), Trim(RemoveAll(source[i + |Marker|..], Marker)), true)
  }

  /**
   * `splitInlineBoardMarkdown`: a blank text has nothing on either side;
   * otherwise the marker is found iff it occurs; `before` is the trimmed text
   * before its first occurrence and `after` the trimmed text after it with
   * the later occurrences removed.
   */
  function SplitInlineBoardMarkdown(markdown: Option<string>): (r: SplitResult)
    ensures r == SplitSource(NormalizedSource(markdown))
    ensures markdown.None? ==> r == SplitResult("", "", false)
  {
    assert IsBlank("");
    SplitSource(NormalizedSource(markdown))
  }

  /** The marker splits the text into the part before it, itself and the part after. */
  lemma SplitReassembles(markdown: Option<string>)
    requires Contains(NormalizedSource(markdown), Marker)
    ensures var s := NormalizedSource(markdown);
      var i := IndexOf(s, Marker).value;
      s == s[..i] + Marker + s[i + |Marker|..]
  {
    var s := NormalizedSource(markdown);
    SplitAround(s, Marker, IndexOf(s, Marker).value);
  }

  /** `stripBoardMarker`: every left-to-right occurrence removed, then trimmed. */
  function StripBoardMarker(markdown: string): (r: string)
    ensures r == Trim(RemoveAll(markdown, Marker))
    ensures !Contains(markdown, Marker) ==> r == Trim(markdown)
  {
    RemoveAbsentWhenFree(markdown);
    Trim(RemoveAll(markdown, Marker))
  }

  lemma RemoveAbsentWhenFree(markdown: string)
    ensures !Contains(markdown, Marker) ==> RemoveAll(markdown, Marker) == markdown
  {
    if !Contains(markdown, Marker) {
      RemoveAbsent(markdown, Marker);
    }
  }

  /** Without a marker, the preview and the public page show the same text before the board. */
  lemma PreviewMatchesPageWithoutMarker(markdown: string)
    requires !Contains(markdown, "\r\n") && !Contains(markdown, Marker)
    ensures SplitInlineBoardMarkdown(Some(markdown)).before == StripBoardMarker(markdown)
  {
    RemoveAbsent(markdown, "\r\n");
  }

  /** The separator put before an insertion so that it starts a new paragraph. */
  function BeforeSeparator(before: string): (sep: string)
    ensures before != [] ==> EndsWith(before + sep, "\n\n")
    ensures before == [] ==> sep == ""
  {
    if |before| == 0 then ""
    else if EndsWith(before, "\n\n") then
      assert before + "" == before;
      ""
    else if EndsWith(before, "\n") then
      var t := before + "\n";
      assert t[|t| - 2] == before[|before| - 1] == '\n';
      assert t[|t| - 2..] == "\n\n";
      "\n"
    else
      var t := before + "\n\n";
      assert t[|t| - 2..] == "\n\n";
      "\n\n"
  }

  /** The separator put after an insertion so that a line break follows it. */
  function AfterSeparator(after: string): (sep: string)
    ensures |(sep + after)| > 0 && (sep + after)[0] == '\n'
    ensures sep == "" || sep == "\n"
  {
    if |after| == 0 then "\n" else if StartsWith(after, "\n") then "" else "\n"
  }

  /** The text after an insertion at the selection, and where the caret goes. */
  datatype Inserted = Inserted(text: string, caret: nat)

  /**
   * The insertion arithmetic of `insertHeading` and `insertBoardMarker`: the
   * selection `[start, end)` is replaced by the inserted line with its
   * separators; the caret lands after the line break that follows it.
   */
  function InsertAtSelection(current: string, start: nat, end: nat, line: string): (r: Inserted)
    requires start <= end <= |current|
    ensures var bs := BeforeSeparator(current[..start]);
      var sa := AfterSeparator(current[end..]);
      var at := start + |bs|;
      && |r.text| == at + |line| + |sa| + (|current| - end)
      && StartsWith(r.text, current[..start]) && EndsWith(r.text, current[end..])
      && (start > 0 ==> EndsWith(r.text[..at], "\n\n"))
      && at + |line| < |r.text|
      && r.text[at..at + |line|] == line
      && r.text[at + |line|] == '\n'
      && r.caret == at + |line| + |sa|
      && r.caret <= |r.text|
  {
    var before := current[..start];
    var after := current[end..];
    var bs := BeforeSeparator(before);
    var sa := AfterSeparator(after);
    assert |before| == start && |after| == |current| - end;
    assert start > 0 ==> EndsWith(before + bs, "\n\n");
    Splice(before, bs, line, sa, after)
  }

  /** The pieces joined, with the caret after the fourth. */
  function Splice(a: string, b: string, c: string, d: string, e: string): (r: Inserted)
    requires |d + e| > 0
    ensures |r.text| == |a| + |b| + |c| + |d| + |e|
    ensures StartsWith(r.text, a) && EndsWith(r.text, e)
    ensures r.text[..|a| + |b|] == a + b
    ensures r.text[|a| + |b|..|a| + |b| + |c|] == c
    ensures r.text[|a| + |b| + |c|] == (d + e)[0]
    ensures r.caret == |a| + |b| + |c| + |d|
  {
    var t := a + b + c + d + e;
    assert t == (a + b) + c + (d + e);
    assert t[..|a|] == a;
    assert t[|t| - |e|..] == e;
    Inserted(t, |a| + |b| + |c| + |d|)
  }

  /** With no editor element, the line is appended after a blank line, or alone when the text is blank. */
  function AppendLine(current: string, line: string): (r: string)
    ensures IsBlank(current) ==> r == current + line + "\n"
    ensures !IsBlank(current) ==> r == current + "\n\n" + line + "\n"
  {
    current + (if Trim(current) == [] then "" else "\n\n") + line + "\n"
  }

  /** The level of heading `insertHeading` writes. */
  datatype Level = Two | Three

  /** "## " and "Rubrik" for level two, "### " and "Underrubrik" for level three. */
  function HeadingMarker(level: Level): string {
    if level == Two then "## " else "### "
  }

  function FallbackTitle(level: Level): string {
    if level == Two then "Rubrik" else "Underrubrik"
  }

  /** The editor's selection, when the editor element exists. */
  datatype Selection = Selection(start: nat, end: nat)

  /** Where a selection is valid: ordered and within the text, as a text area keeps it. */
  predicate SelectionIn(selection: Option<Selection>, current: string) {
    selection.Some? ==> selection.value.start <= selection.value.end <= |current|
  }

  /** The heading line: the trimmed selected text, or the fallback title, after the marker. */
  function HeadingLine(current: string, level: Level, selection: Option<Selection>): (line: string)
    requires SelectionIn(selection, current)
    ensures StartsWith(line, HeadingMarker(level))
    ensures var text := line[|HeadingMarker(level)|..];
      && (selection.Some? && Trim(current[selection.value.start..selection.value.end]) != [] ==>
            text == Trim(current[selection.value.start..selection.value.end]))
      && (selection.None? || Trim(current[selection.value.start..selection.value.end]) == [] ==>
            text == FallbackTitle(level))
  {
    var selected := if selection.Some? then Trim(current[selection.value.start..selection.value.end]) else "";
    var text := if selected != [] then selected else FallbackTitle(level);
    assert (HeadingMarker(level) + text)[|HeadingMarker(level)|..] == text;
    HeadingMarker(level) + text
  }

  /** `insertHeading`: the new text, and the caret when there is an editor element. */
  function InsertHeading(current: string, level: Level, selection: Option<Selection>): (r: (string, Option<nat>))
    requires SelectionIn(selection, current)
    ensures selection.None? ==> r == (AppendLine(current, HeadingLine(current, level, None)), None)
    ensures selection.Some? ==>
      var ins := InsertAtSelection(current, selection.value.start, selection.value.end, HeadingLine(current, level, selection));
      r == (ins.text, Some(ins.caret))
  {
    var line := HeadingLine(current, level, selection);
    if selection.None? then (AppendLine(current, line), None)
    else
      var ins := InsertAtSelection(current, selection.value.start, selection.value.end, line);
      (ins.text, Some(ins.caret))
  }

  /** What `insertBoardMarker` does: refuses when the marker is there, else inserts it. */
  datatype MarkerInsertion = AlreadyPresent | MarkerInserted(text: string, caret: Option<nat>)

  const AlreadyPresentMessage := "Spelplansmarkor finns redan i texten."

  function InsertBoardMarker(current: string, selection: Option<Selection>): (r: MarkerInsertion)
    requires SelectionIn(selection, current)
    ensures r.AlreadyPresent? <==> Contains(current, Marker)
    ensures r.MarkerInserted? && selection.None? ==> r == MarkerInserted(AppendLine(current, Marker), None)
    ensures r.MarkerInserted? && selection.Some? ==>
      var ins := InsertAtSelection(current, selection.value.start, selection.value.end, Marker);
      r == MarkerInserted(ins.text, Some(ins.caret))
    ensures r.MarkerInserted? ==> Contains(r.text, Marker)
  {
    if Contains(current, Marker) then AlreadyPresent
    else if selection.None? then
      AppendedHasLine(current, Marker);
      MarkerInserted(AppendLine(current, Marker), None)
    else
      var ins := InsertAtSelection(current, selection.value.start, selection.value.end, Marker);
      InsertedHasLine(current, selection.value.start, selection.value.end, Marker);
      MarkerInserted(ins.text, Some(ins.caret))
  }

  lemma AppendedHasLine(current: string, line: string)
    ensures Contains(AppendLine(current, line), line)
  {
    var text := AppendLine(current, line);
    assert IsAt(text, line, |text| - |line| - 1);
  }

  lemma InsertedHasLine(current: string, start: nat, end: nat, line: string)
    requires start <= end <= |current|
    ensures Contains(InsertAtSelection(current, start, end, line).text, line)
  {
    var at := start + |BeforeSeparator(current[..start])|;
    assert IsAt(InsertAtSelection(current, start, end, line).text, line, at);
  }

  /** Once inserted, a second insertion is refused: the marker never appears twice this way. */
  lemma InsertBoardMarkerOnce(current: string, selection: Option<Selection>, again: Option<Selection>)
    requires SelectionIn(selection, current)
    requires InsertBoardMarker(current, selection).MarkerInserted?
    requires SelectionIn(again, InsertBoardMarker(current, selection).text)
    ensures InsertBoardMarker(InsertBoardMarker(current, selection).text, again).AlreadyPresent?
  {
  }
}
