/**
 * `renderBlocks` (`src/components/ui/markdown-content.tsx`): the small
 * line-based markdown the archive articles are written in. Headings ("## ",
 * "### "), runs of "- " items and runs of other lines become blocks; blank
 * lines only separate.
 */
module Markdown {
  import opened Text

  datatype Block =
    | H2(text: string)
    | H3(text: string)
    | Paragraph(text: string)
    | List(items: seq<string>)

  /** How a trimmed line is read. */
  datatype LineKind = BlankLine | H3Line | H2Line | ItemLine | TextLine

  function KindOf(line: string): LineKind {
    if line == [] then BlankLine
    else if StartsWith(line, "### ") then H3Line
    else if StartsWith(line, "## ") then H2Line
    else if StartsWith(line, "- ") then ItemLine
    else TextLine
  }

  /** The input's lines, CRLF read as LF, each trimmed. */
  function Lines(markdown: string): (ls: seq<string>)
    ensures forall k | 0 <= k < |ls| :: NoOuterSpace(ls[k])
  {
    var raw := SplitBy(ReplaceAll(markdown, "\r\n", "\n"), "\n");
    TrimAll(raw)
  }

  /** Each line trimmed. */
  function TrimAll(raw: seq<string>): (ls: seq<string>)
    ensures |ls| == |raw|
    ensures forall k | 0 <= k < |ls| :: ls[k] == Trim(raw[k])
  {
    seq(|raw|, k requires 0 <= k < |raw| => Trim(raw[k]))
  }

  /** How many lines from the start are of the given kind. */
  function RunLength(ls: seq<string>, kind: LineKind): (n: nat)
    ensures n <= |ls|
    ensures ls != [] && KindOf(ls[0]) == kind ==> n >= 1
    ensures forall k | 0 <= k < n :: KindOf(ls[k]) == kind
  {
    if ls == [] || KindOf(ls[0]) != kind then 0 else 1 + RunLength(ls[1..], kind)
  }

  /** The text of "- " items. */
  function Items(ls: seq<string>): (items: seq<string>)
    ensures |items| == |ls|
  {
    if ls == [] then [] else [if |ls[0]| >= 2 then ls[0][2..] else []] + Items(ls[1..])
  }

  /**
   * The blocks of a sequence of trimmed lines, read run by run: a heading
   * line is a block of its own, a maximal run of items is one list, a
   * maximal run of other lines is one paragraph of those lines joined by LF.
   */
  function Blocks(ls: seq<string>): seq<Block>
    decreases |ls|
  {
    if ls == [] then []
    else
      match KindOf(ls[0])
      case BlankLine => Blocks(ls[1..])
      case H3Line => [H3(ls[0][4..])] + Blocks(ls[1..])
      case H2Line => [H2(ls[0][3..])] + Blocks(ls[1..])
      case ItemLine =>
        var n := RunLength(ls, ItemLine);
        [List(Items(ls[..n]))] + Blocks(ls[n..])
      case TextLine =>
        var n := RunLength(ls, TextLine);
        [Paragraph(Join(ls[..n], "\n"))] + Blocks(ls[n..])
  }

  /**
   * The blocks still to come when the parser holds a pending paragraph or
   * a pending list: the pending lines continue with the run that follows.
   */
  function Pending(paragraph: seq<string>, listItems: seq<string>, rest: seq<string>): seq<Block> {
    if paragraph != [] then
      var n := RunLength(rest, TextLine);
      [Paragraph(Join(paragraph + rest[..n], "\n"))] + Blocks(rest[n..])
    else if listItems != [] then
      var n := RunLength(rest, ItemLine);
      [List(listItems + Items(rest[..n]))] + Blocks(rest[n..])
    else Blocks(rest)
  }

  /** A line of another kind ends a pending run. */
  lemma PendingEnds(paragraph: seq<string>, listItems: seq<string>, rest: seq<string>)
    requires paragraph == [] || listItems == []
    requires rest != []
    requires paragraph != [] ==> KindOf(rest[0]) != TextLine
    requires listItems != [] ==> KindOf(rest[0]) != ItemLine
    ensures Pending(paragraph, listItems, rest) ==
      (if paragraph != [] then [Paragraph(Join(paragraph, "\n"))]
       else if listItems != [] then [List(listItems)] else [])
      + Blocks(rest)
  {
    assert rest[..0] == [] && rest[0..] == rest;
    assert paragraph + [] == paragraph && listItems + [] == listItems;
  }

  /** A text line extends the pending paragraph. */
  lemma PendingParagraphGrows(paragraph: seq<string>, rest: seq<string>)
    requires rest != [] && KindOf(rest[0]) == TextLine
    ensures Pending(paragraph, [], rest) == Pending(paragraph + [rest[0]], [], rest[1..])
  {
    var n := RunLength(rest[1..], TextLine);
    assert RunLength(rest, TextLine) == n + 1;
    assert rest[..n + 1] == [rest[0]] + rest[1..][..n];
    assert rest[n + 1..] == rest[1..][n..];
    assert paragraph + rest[..n + 1] == paragraph + [rest[0]] + rest[1..][..n];
    if paragraph == [] {
      assert Blocks(rest) == [Paragraph(Join(rest[..n + 1], "\n"))] + Blocks(rest[n + 1..]);
    }
  }

  /** An item line extends the pending list. */
  lemma PendingListGrows(listItems: seq<string>, rest: seq<string>)
    requires rest != [] && KindOf(rest[0]) == ItemLine
    ensures Pending([], listItems, rest) == Pending([], listItems + [rest[0][2..]], rest[1..])
  {
    var n := RunLength(rest[1..], ItemLine);
    assert RunLength(rest, ItemLine) == n + 1;
    assert rest[..n + 1] == [rest[0]] + rest[1..][..n];
    assert rest[..n + 1][1..] == rest[1..][..n];
    assert Items(rest[..n + 1]) == [rest[0][2..]] + Items(rest[1..][..n]);
    assert rest[n + 1..] == rest[1..][n..];
    assert listItems + Items(rest[..n + 1]) == listItems + [rest[0][2..]] + Items(rest[1..][..n]);
    if listItems == [] {
      assert Blocks(rest) == [List(Items(rest[..n + 1]))] + Blocks(rest[n + 1..]);
      assert [] + Items(rest[..n + 1]) == Items(rest[..n + 1]);
    }
  }

  lemma AppendAssoc(a: seq<Block>, b: seq<Block>, c: seq<Block>)
    ensures (a + b) + c == a + (b + c)
  {
  }

  /** The blocks a flush emits: the pending paragraph or the pending list, if any. */
  function Flushed(paragraph: seq<string>, listItems: seq<string>): seq<Block> {
    if paragraph != [] then [Paragraph(Join(paragraph, "\n"))]
    else if listItems != [] then [List(listItems)] else []
  }

  /** The step on a line that is neither text nor an item: flush, then the heading (if any) and the rest. */
  lemma OtherLineStep(blocks: seq<Block>, paragraph: seq<string>, listItems: seq<string>, rest: seq<string>)
    requires paragraph == [] || listItems == []
    requires rest != [] && KindOf(rest[0]) != TextLine && KindOf(rest[0]) != ItemLine
    ensures (blocks + Flushed(paragraph, listItems)) + Blocks(rest) == blocks + Pending(paragraph, listItems, rest)
  {
    PendingEnds(paragraph, listItems, rest);
    AppendAssoc(blocks, Flushed(paragraph, listItems), Blocks(rest));
  }

  /** The step on a text line: the list (if any) is flushed and the line joins the paragraph. */
  lemma TextLineStep(blocks: seq<Block>, paragraph: seq<string>, listItems: seq<string>, rest: seq<string>)
    requires paragraph == [] || listItems == []
    requires rest != [] && KindOf(rest[0]) == TextLine
    ensures (blocks + Flushed([], listItems)) + Pending(paragraph + [rest[0]], [], rest[1..])
      == blocks + Pending(paragraph, listItems, rest)
  {
    if listItems != [] {
      PendingEnds(paragraph, listItems, rest);
      PendingParagraphGrows([], rest);
      AppendAssoc(blocks, Flushed([], listItems), Blocks(rest));
      assert [] + [rest[0]] == [rest[0]];
    } else {
      PendingParagraphGrows(paragraph, rest);
      assert Flushed([], listItems) == [];
      assert blocks + [] == blocks;
    }
  }

  /** The step on an item line: the paragraph (if any) is flushed and the item joins the list. */
  lemma ItemLineStep(blocks: seq<Block>, paragraph: seq<string>, listItems: seq<string>, rest: seq<string>)
    requires paragraph == [] || listItems == []
    requires rest != [] && KindOf(rest[0]) == ItemLine
    ensures (blocks + Flushed(paragraph, [])) + Pending([], listItems + [rest[0][2..]], rest[1..])
      == blocks + Pending(paragraph, listItems, rest)
  {
    if paragraph != [] {
      PendingEnds(paragraph, listItems, rest);
      PendingListGrows([], rest);
      AppendAssoc(blocks, Flushed(paragraph, []), Blocks(rest));
      assert [] + [rest[0][2..]] == [rest[0][2..]];
    } else {
      PendingListGrows(listItems, rest);
      assert Flushed(paragraph, []) == [];
      assert blocks + [] == blocks;
    }
  }

  /** A heading line contributes its own block ahead of the rest. */
  lemma HeadingStep(blocks: seq<Block>, rest: seq<string>)
    requires rest != [] && KindOf(rest[0]) != TextLine && KindOf(rest[0]) != ItemLine
    ensures blocks + Blocks(rest) ==
      (blocks + (if KindOf(rest[0]) == H3Line then [H3(rest[0][4..])]
                 else if KindOf(rest[0]) == H2Line then [H2(rest[0][3..])] else []))
      + Blocks(rest[1..])
  {
    var h := if KindOf(rest[0]) == H3Line then [H3(rest[0][4..])]
             else if KindOf(rest[0]) == H2Line then [H2(rest[0][3..])] else [];
    assert Blocks(rest) == h + Blocks(rest[1..]);
    AppendAssoc(blocks, h, Blocks(rest[1..]));
  }

  /**
   * One turn of the parser's loop on `line`, the first of the lines `rest`
   * still to read: a text line flushes the list and joins the paragraph, an
   * item line flushes the paragraph and joins the list, any other line
   * flushes both and a heading is then emitted.
   */
  method ReadLine(blocks: seq<Block>, paragraph: seq<string>, listItems: seq<string>, line: string, ghost rest: seq<string>)
    returns (blocks': seq<Block>, paragraph': seq<string>, listItems': seq<string>)
    requires paragraph == [] || listItems == []
    requires rest != [] && rest[0] == line
    ensures paragraph' == [] || listItems' == []
    ensures blocks' + Pending(paragraph', listItems', rest[1..]) == blocks + Pending(paragraph, listItems, rest)
  {
    var kind := KindOf(line);
    if kind == TextLine {
      TextLineStep(blocks, paragraph, listItems, rest);
      blocks' := blocks;
      if listItems != [] {
        blocks' := blocks' + [List(listItems)];
      }
      assert blocks' == blocks + Flushed([], listItems);
      paragraph', listItems' := paragraph + [line], [];
    } else if kind == ItemLine {
      ItemLineStep(blocks, paragraph, listItems, rest);
      blocks' := blocks;
      if paragraph != [] {
        blocks' := blocks' + [Paragraph(Join(paragraph, "\n"))];
      }
      assert blocks' == blocks + Flushed(paragraph, []);
      paragraph', listItems' := [], listItems + [line[2..]];
    } else {
      OtherLineStep(blocks, paragraph, listItems, rest);
      blocks' := blocks;
      if paragraph != [] {
        blocks' := blocks' + [Paragraph(Join(paragraph, "\n"))];
      }
      if listItems != [] {
        blocks' := blocks' + [List(listItems)];
      }
      assert blocks' == blocks + Flushed(paragraph, listItems);
      HeadingStep(blocks', rest);
      if kind == H3Line {
        blocks' := blocks' + [H3(line[4..])];
      } else if kind == H2Line {
        blocks' := blocks' + [H2(line[3..])];
      } else {
        assert blocks' + [] == blocks';
      }
      paragraph', listItems' := [], [];
    }
  }

  /** At the end of the input, what is pending is exactly what the final flushes emit. */
  lemma PendingAtEnd(paragraph: seq<string>, listItems: seq<string>)
    ensures Pending(paragraph, listItems, []) == Flushed(paragraph, listItems)
  {
    var none: seq<string> := [];
    assert none[..0] == [] && none[0..] == [];
    assert paragraph + [] == paragraph && listItems + [] == listItems;
  }

  /**
   * `renderBlocks`: one pass over the lines with a pending paragraph and a
   * pending list, of which at most one is non-empty; both are flushed at
   * the end.
   */
  method RenderBlocks(markdown: string) returns (blocks: seq<Block>)
    ensures blocks == Blocks(Lines(markdown))
  {
    blocks := RenderLines(Lines(markdown));
  }

  /** The pass over the lines itself. */
  method RenderLines(lines: seq<string>) returns (blocks: seq<Block>)
    ensures blocks == Blocks(lines)
  {
    blocks := [];
    var paragraph: seq<string> := [];
    var listItems: seq<string> := [];
    var i := 0;
    assert lines[0..] == lines;
    while i < |lines|
      invariant 0 <= i <= |lines|
      invariant paragraph == [] || listItems == []
      invariant blocks + Pending(paragraph, listItems, lines[i..]) == Blocks(lines)
    {
      assert lines[i..][1..] == lines[i + 1..];
      blocks, paragraph, listItems := ReadLine(blocks, paragraph, listItems, lines[i], lines[i..]);
      i := i + 1;
    }
    assert lines[i..] == [];
    PendingAtEnd(paragraph, listItems);
    ghost var done := blocks;
    if paragraph != [] {
      blocks := blocks + [Paragraph(Join(paragraph, "\n"))];
    }
    if listItems != [] {
      blocks := blocks + [List(listItems)];
    }
    assert blocks == done + Flushed(paragraph, listItems);
  }

  /** No block is empty: heading and paragraph texts have characters, lists have items. */
  predicate NonEmptyBlock(b: Block) {
    match b
    case H2(t) => t != []
    case H3(t) => t != []
    case Paragraph(t) => t != []
    case List(items) => items != []
  }

  lemma {:induction false} BlocksAreNonEmpty(ls: seq<string>)
    requires forall k | 0 <= k < |ls| :: NoOuterSpace(ls[k])
    ensures forall k | 0 <= k < |Blocks(ls)| :: NonEmptyBlock(Blocks(ls)[k])
    decreases |ls|
  {
    if ls != [] {
      var line := ls[0];
      match KindOf(line)
      case BlankLine =>
        BlocksAreNonEmpty(ls[1..]);
      case H3Line =>
        BlocksAreNonEmpty(ls[1..]);
      case H2Line =>
        BlocksAreNonEmpty(ls[1..]);
      case ItemLine =>
        var n := RunLength(ls, ItemLine);
        BlocksAreNonEmpty(ls[n..]);
      case TextLine =>
        var n := RunLength(ls, TextLine);
        BlocksAreNonEmpty(ls[n..]);
        JoinStartsWithFirst(ls[..n], "\n");
    }
  }

  /** A join starts with its first part. */
  lemma {:induction false} JoinStartsWithFirst(parts: seq<string>, sep: string)
    requires parts != []
    ensures |Join(parts, sep)| >= |parts[0]| && Join(parts, sep)[..|parts[0]|] == parts[0]
  {
    if |parts| > 1 {
      assert Join(parts, sep) == parts[0] + (sep + Join(parts[1..], sep));
    }
  }

  /** Whatever the input, `renderBlocks` never emits an empty block. */
  lemma RenderedBlocksAreNonEmpty(markdown: string)
    ensures forall k | 0 <= k < |Blocks(Lines(markdown))| :: NonEmptyBlock(Blocks(Lines(markdown))[k])
  {
    var ls := Lines(markdown);
    BlocksAreNonEmpty(ls);
  }

  /** A heading between two runs separates them: the runs never merge across it. */
  lemma {:induction false} HeadingSplits(before: seq<string>, heading: string, after: seq<string>)
    requires KindOf(heading) == H2Line
    requires forall k | 0 <= k < |before| :: KindOf(before[k]) == TextLine
    requires before != []
    ensures Blocks(before + [heading] + after) == [Paragraph(Join(before, "\n")), H2(heading[3..])] + Blocks(after)
  {
    var ls := before + [heading] + after;
    RunOfKind(ls, before, TextLine);
    assert ls[0] == before[0];
    assert ls[|before|..] == [heading] + after;
    assert ls[..|before|] == before;
    HeadingBlock(heading, after);
    assert Blocks(ls) == [Paragraph(Join(ls[..|before|], "\n"))] + Blocks(ls[|before|..]);
  }

  /** A heading line is a block of its own. */
  lemma HeadingBlock(heading: string, after: seq<string>)
    requires KindOf(heading) == H2Line
    ensures Blocks([heading] + after) == [H2(heading[3..])] + Blocks(after)
  {
    assert ([heading] + after)[1..] == after;
  }

  /** A run of one kind followed by another kind has exactly its length. */
  lemma {:induction false} RunOfKind(ls: seq<string>, run: seq<string>, kind: LineKind)
    requires |run| <= |ls| && ls[..|run|] == run
    requires forall k | 0 <= k < |run| :: KindOf(run[k]) == kind
    requires |run| < |ls| ==> KindOf(ls[|run|]) != kind
    ensures RunLength(ls, kind) == |run|
  {
    if run != [] {
      assert ls[1..][..|run| - 1] == run[1..];
      RunOfKind(ls[1..], run[1..], kind);
    }
  }
}
