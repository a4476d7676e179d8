/** The text a document ends up with, told without a cursor.

    `Collect` only gathers: the characters and breaks between two boundaries, and the
    finished blocks. The text of a paragraph is then `Render` of what was gathered for it.
    `PageText` and `CellText` prove that the cursor, which decides everything one text node
    at a time, produces exactly these blocks. Formats and the cuts between text nodes do not
    occur in what is gathered, so the result cannot depend on them. */
module DocumentText {
  import opened Options
  import opened Whitespace
  import opened Document

  // ---- Blocks as text ----

  datatype TextBlock =
    | TextParagraph(text: string, mark: Option<ItemMark>)
    | TextRule
    | TextTable(height: nat, width: nat, cells: seq<TextCell>)

  datatype TextCell = TextCell(place: Placement, blocks: seq<TextBlock>)

  function RunsText(runs: seq<TextRun>): string {
    if runs == [] then "" else RunsText(runs[..|runs| - 1]) + runs[|runs| - 1].text
  }

  function BlockText(b: Block): TextBlock
    decreases b, 1
  {
    match b
    case Paragraph(runs, mark) => TextParagraph(RunsText(runs), mark)
    case Rule => TextRule
    case Table(height, width, cells) => TextTable(height, width, CellsText(cells))
  }

  function Texts(blocks: seq<Block>): (out: seq<TextBlock>)
    ensures |out| == |blocks|
    ensures forall i | 0 <= i < |blocks| :: out[i] == BlockText(blocks[i])
    decreases blocks, 0
  {
    if blocks == [] then [] else Texts(blocks[..|blocks| - 1]) + [BlockText(blocks[|blocks| - 1])]
  }

  function CellsText(cells: seq<Cell>): seq<TextCell>
    decreases cells, 0
  {
    if cells == [] then []
    else
      var cell := cells[|cells| - 1];
      CellsText(cells[..|cells| - 1]) + [TextCell(cell.place, Texts(cell.blocks))]
  }

  // ---- Gathering ----

  /** Whether what was gathered makes a paragraph: a break, content, or preformatted text. */
  predicate Opens(line: seq<Token>) {
    exists i :: 0 <= i < |line| && OpensOn(line[i])
  }

  predicate OpensOn(t: Token) {
    t.Ch? ==> Inked(t.c)
  }

  /** A paragraph's text: the rendering of what was gathered, when none of it is preformatted. */
  function ParagraphText(line: seq<Token>): string {
    if Flowing(line) then Render(line) else Run(EMPTY_LINE, line).out
  }

  /** The blocks finished, what is gathered for the next one, and its numbering. */
  datatype Gathered = Gathered(done: seq<TextBlock>, line: seq<Token>, mark: Option<ItemMark>)

  const NOTHING := Gathered([], [], None)

  function Finish(g: Gathered): Gathered {
    if Opens(g.line) then Gathered(g.done + [TextParagraph(ParagraphText(g.line), g.mark)], [], None)
    else Gathered(g.done, [], g.mark)
  }

  /** The characters of a text node. */
  function TextTokens(raw: string, preformatted: bool): seq<Token> {
    if preformatted then
      if Strip(Clean(raw), '\n') != "" then [Verbatim(Strip(Clean(raw), '\n'))] else []
    else Chars(raw)
  }

  function CollectOne(g: Gathered, e: Event): Gathered
    decreases e, 1
  {
    match e
    case TextNode(raw, _, preformatted) => g.(line := g.line + TextTokens(raw, preformatted))
    case LineBreak => g.(line := g.line + [Br])
    case Boundary => Finish(g)
    case RuleLine => var f := Finish(g); f.(done := f.done + [TextRule])
    case ListBegin(_, _, _) => Finish(g)
    case ListEnd => Finish(g)
    case ItemBegin(mark) => Finish(g).(mark := Some(mark))
    case ItemEnd => Finish(g).(mark := None)
    case TableBlock(height, width, cells) =>
      var f := Finish(g); f.(done := f.done + [TextTable(height, width, CollectCells(cells))])
  }

  function Collect(g: Gathered, es: seq<Event>): Gathered
    decreases es, 0
  {
    if es == [] then g else CollectOne(Collect(g, es[..|es| - 1]), es[|es| - 1])
  }

  /** The blocks of a page. */
  function PageBlocks(es: seq<Event>): seq<TextBlock>
    decreases es, 2
  {
    Finish(Collect(NOTHING, es)).done
  }

  /** Where the first block that is not a table is. */
  function FirstText(bs: seq<TextBlock>): (k: nat)
    ensures k <= |bs| && (k < |bs| ==> !bs[k].TextTable?)
    ensures forall i | 0 <= i < k :: bs[i].TextTable?
  {
    if bs == [] then 0
    else
      var k := FirstText(bs[..|bs| - 1]);
      if k == |bs| - 1 && bs[k].TextTable? then |bs| else k
  }

  /** A cell begins with a paragraph of its own: the first block that is not a table takes its
      place, or it stays empty. */
  function InCellOrder(bs: seq<TextBlock>): (out: seq<TextBlock>)
    ensures out != []
  {
    var k := FirstText(bs);
    if k == |bs| then [TextParagraph("", None)] + bs else [bs[k]] + bs[..k] + bs[k + 1..]
  }

  /** An empty paragraph follows each table of a cell. */
  function PaddedText(bs: seq<TextBlock>): seq<TextBlock> {
    if bs == [] then []
    else
      var last := bs[|bs| - 1];
      PaddedText(bs[..|bs| - 1]) + if last.TextTable? then [last, TextParagraph("", None)] else [last]
  }

  function CellBlocks(es: seq<Event>): seq<TextBlock>
    decreases es, 3
  {
    PaddedText(InCellOrder(PageBlocks(es)))
  }

  function CollectCells(cells: seq<CellEvents>): seq<TextCell>
    decreases cells, 0
  {
    if cells == [] then []
    else
      var cell := cells[|cells| - 1];
      CollectCells(cells[..|cells| - 1]) + [TextCell(cell.place, CellBlocks(cell.events))]
  }

  // ---- A line without content leaves the cursor as it was ----

  lemma {:induction false} OpensSnoc(line: seq<Token>, t: Token)
    ensures Opens(line + [t]) <==> Opens(line) || OpensOn(t)
  {
    if OpensOn(t) { assert OpensOn((line + [t])[|line|]); }
    if Opens(line) {
      var i :| 0 <= i < |line| && OpensOn(line[i]);
      assert OpensOn((line + [t])[i]);
    }
  }

  lemma {:induction false} OpensRun(line: seq<Token>)
    requires forall i | 0 <= i < |line| && line[i].Verbatim? :: line[i].text != ""
    ensures !Opens(line) ==> Run(EMPTY_LINE, line) == EMPTY_LINE
    ensures Opens(line) ==> Run(EMPTY_LINE, line).out != "" || Run(EMPTY_LINE, line).breaks > 0
  {
    if line != [] {
      var n := |line| - 1;
      OpensRun(line[..n]);
      assert line == line[..n] + [line[n]];
      OpensSnoc(line[..n], line[n]);
      NotBlank(Run(EMPTY_LINE, line[..n]), line[n]);
    }
  }

  lemma NotBlank(l: Line, t: Token)
    requires t.Verbatim? ==> t.text != ""
    ensures l.out != "" || l.breaks > 0 || OpensOn(t) ==> TokenStep(l, t).out != "" || TokenStep(l, t).breaks > 0
    ensures l == EMPTY_LINE && !OpensOn(t) ==> TokenStep(l, t) == EMPTY_LINE
  {
    if t.Verbatim? { assert |l.out + Breaks(l.breaks) + t.text| >= |t.text|; }
  }

  // ---- The cursor between paragraphs, and within one ----

  /** A block put after the others, or in place of the first. */
  function Put(base: seq<TextBlock>, b: TextBlock, front: bool): seq<TextBlock>
    requires front ==> base != []
  {
    if front then base[0 := b] else base + [b]
  }

  ghost predicate Waiting(c: CursorState, base: seq<TextBlock>, front: bool, mark: Option<ItemMark>) {
    && ValidState(c) && c.paragraph.None? && Texts(c.blocks) == base
    && c.spare == front && c.numbering == mark
  }

  ghost predicate Writing(c: CursorState, base: seq<TextBlock>, front: bool, mark: Option<ItemMark>, l: Line) {
    && ValidState(c) && (front ==> base != [])
    && c.paragraph == Some(if front then 0 else |base|)
    && Texts(c.blocks) == Put(base, TextParagraph(l.out, mark), front)
    && c.numbering == None && !c.spare
    && c.hasText == l.hasText && c.space == l.space && c.breaks == l.breaks
  }

  lemma TextsUpdate(blocks: seq<Block>, at: nat, b: Block)
    requires at < |blocks|
    ensures Texts(blocks[at := b]) == Texts(blocks)[at := BlockText(b)]
  {
  }

  lemma TextsSnoc(blocks: seq<Block>, b: Block)
    ensures Texts(blocks + [b]) == Texts(blocks) + [BlockText(b)]
  {
    assert (blocks + [b])[..|blocks|] == blocks;
  }

  lemma OpenWaiting(c: CursorState, base: seq<TextBlock>, front: bool, mark: Option<ItemMark>)
    requires Waiting(c, base, front, mark)
    ensures Writing(OpenStep(c), base, front, mark, EMPTY_LINE)
  {
    var p := Paragraph([], c.numbering);
    assert BlockText(p) == TextParagraph("", mark);
    if front { TextsUpdate(c.blocks, 0, p); } else { TextsSnoc(c.blocks, p); }
  }

  lemma WriteWriting(c: CursorState, base: seq<TextBlock>, front: bool, mark: Option<ItemMark>, l: Line, format: Format, text: string)
    requires Writing(c, base, front, mark, l)
    ensures Writing(WriteStep(c, format, text), base, front, mark, Line(l.out + Breaks(l.breaks) + text, true, l.space, 0))
  {
    hide ParagraphText, Run, Render;
    var at := c.paragraph.value;
    var p := c.blocks[at];
    var more := p.(runs := p.runs + [TextRun(Breaks(c.breaks) + text, format)]);
    assert Texts(c.blocks)[at] == TextParagraph(l.out, mark);
    assert more.runs[..|p.runs|] == p.runs;
    assert l.out + (Breaks(l.breaks) + text) == l.out + Breaks(l.breaks) + text;
    TextsUpdate(c.blocks, at, more);
  }

  /** Preformatted text on a line. */
  function NodeLine(l: Line, preformatted: bool, raw: string): Line {
    if preformatted then
      var body := Strip(Clean(raw), '\n');
      if body != "" then Line(l.out + Breaks(l.breaks) + body, true, l.space, 0) else l
    else TextStep(l, raw)
  }

  lemma TextWriting(c: CursorState, base: seq<TextBlock>, front: bool, mark: Option<ItemMark>, l: Line,
                    format: Format, preformatted: bool, raw: string)
    requires Writing(c, base, front, mark, l) && Settled(l)
    ensures Writing(TextNodeStep(c, format, preformatted, raw), base, front, mark, NodeLine(l, preformatted, raw))
  {
    WritingLine(c, base, front, mark, l);
    assert Strip("", ' ') == "";
    hide WriteStep, Writing, Strip, Collapse;
    if raw == "" {
      EmptyNode(l);
    } else if preformatted {
      WriteWriting(c, base, front, mark, l, format, Strip(Clean(raw), '\n'));
    } else {
      var collapsed := Collapse(Clean(raw));
      var core := Strip(collapsed, ' ');
      if core == "" {
        SpaceWriting(c, base, front, mark, l, true);
      } else {
        var lead := (collapsed[0] == ' ' || c.space) && c.hasText;
        CoreWriting(c, base, front, mark, l, format, lead, core);
        var written := CoreStep(c, format, lead, core);
        SpaceWriting(written, base, front, mark,
                     Line(l.out + Breaks(l.breaks) + (if lead then " " else "") + core, true, l.space, 0),
                     EndsWith(collapsed, ' '));
      }
    }
  }

  function CoreStep(c: CursorState, format: Format, lead: bool, core: string): (o: CursorState)
    requires ValidState(c)
    ensures ValidState(o)
  {
    if lead && Drawn(format) then WriteStep(WriteStep(c, PLAIN, " "), format, core)
    else WriteStep(c, format, (if lead then " " else "") + core)
  }

  /** However the leading space is written, the line gets it before the text. */
  lemma CoreWriting(c: CursorState, base: seq<TextBlock>, front: bool, mark: Option<ItemMark>, l: Line,
                    format: Format, lead: bool, core: string)
    requires ValidState(c) && Writing(c, base, front, mark, l)
    ensures Writing(CoreStep(c, format, lead, core), base, front, mark,
                    Line(l.out + Breaks(l.breaks) + (if lead then " " else "") + core, true, l.space, 0))
  {
    hide WriteStep, Writing;
    if lead && Drawn(format) {
      WriteWriting(c, base, front, mark, l, PLAIN, " ");
      var l' := Line(l.out + Breaks(l.breaks) + " ", true, l.space, 0);
      WriteWriting(WriteStep(c, PLAIN, " "), base, front, mark, l', format, core);
      assert l'.out + Breaks(0) + core == l.out + Breaks(l.breaks) + " " + core;
    } else {
      var text := (if lead then " " else "") + core;
      WriteWriting(c, base, front, mark, l, format, text);
      assert l.out + Breaks(l.breaks) + text == l.out + Breaks(l.breaks) + (if lead then " " else "") + core;
    }
  }

  lemma EmptyNode(l: Line)
    ensures forall preformatted :: NodeLine(l, preformatted, "") == l
  {
  }

  lemma WritingLine(c: CursorState, base: seq<TextBlock>, front: bool, mark: Option<ItemMark>, l: Line)
    requires Writing(c, base, front, mark, l)
    ensures ValidState(c) && c.hasText == l.hasText && c.space == l.space
  {
  }

  lemma SpaceWriting(c: CursorState, base: seq<TextBlock>, front: bool, mark: Option<ItemMark>, l: Line, space: bool)
    requires Writing(c, base, front, mark, l)
    ensures Writing(c.(space := space), base, front, mark, l.(space := space))
  {
  }

  lemma TextWaiting(c: CursorState, base: seq<TextBlock>, front: bool, mark: Option<ItemMark>,
                    format: Format, preformatted: bool, raw: string)
    requires Waiting(c, base, front, mark)
    ensures var o, l := TextNodeStep(c, format, preformatted, raw), NodeLine(EMPTY_LINE, preformatted, raw);
            if l == EMPTY_LINE then Waiting(o, base, front, mark) else Writing(o, base, front, mark, l)
  {
    OpenWaiting(c, base, front, mark);
    TextWriting(OpenStep(c), base, front, mark, EMPTY_LINE, format, preformatted, raw);
    NodeOnEmpty(c, format, preformatted, raw);
  }

  /** Before a paragraph is open, a text node either does nothing or does what it does in one
      just opened. */
  lemma NodeOnEmpty(c: CursorState, format: Format, preformatted: bool, raw: string)
    requires ValidState(c) && c.paragraph.None?
    ensures var o, l := TextNodeStep(c, format, preformatted, raw), NodeLine(EMPTY_LINE, preformatted, raw);
            if l == EMPTY_LINE then o == c else o == TextNodeStep(OpenStep(c), format, preformatted, raw)
  {
    assert !c.hasText && !OpenStep(c).hasText;
    assert OpenStep(OpenStep(c)) == OpenStep(c);
  }

  lemma BreakWriting(c: CursorState, base: seq<TextBlock>, front: bool, mark: Option<ItemMark>, l: Line)
    requires Writing(c, base, front, mark, l)
    ensures Writing(LineBreakStep(c), base, front, mark, BreakStep(l))
  {
  }

  lemma BreakWaiting(c: CursorState, base: seq<TextBlock>, front: bool, mark: Option<ItemMark>)
    requires Waiting(c, base, front, mark)
    ensures Writing(LineBreakStep(c), base, front, mark, BreakStep(EMPTY_LINE))
  {
    OpenWaiting(c, base, front, mark);
    BreakWriting(OpenStep(c), base, front, mark, EMPTY_LINE);
  }

  lemma CloseWriting(c: CursorState, base: seq<TextBlock>, front: bool, mark: Option<ItemMark>, l: Line)
    requires Writing(c, base, front, mark, l)
    ensures Waiting(CloseStep(c), Put(base, TextParagraph(l.out, mark), front), false, None)
  {
  }

  lemma CloseWaiting(c: CursorState, base: seq<TextBlock>, front: bool, mark: Option<ItemMark>)
    requires Waiting(c, base, front, mark)
    ensures CloseStep(c) == c
  {
  }

  lemma RuleWaiting(c: CursorState, base: seq<TextBlock>, front: bool, mark: Option<ItemMark>)
    requires Waiting(c, base, front, mark) && (front ==> base != [])
    ensures Waiting(RuleStep(c), Put(base, TextRule, front), false, mark)
  {
    assert BlockText(Rule) == TextRule;
    if front { TextsUpdate(c.blocks, 0, Rule); } else { TextsSnoc(c.blocks, Rule); }
  }

  lemma AddWaiting(c: CursorState, base: seq<TextBlock>, front: bool, mark: Option<ItemMark>, table: Block)
    requires Waiting(c, base, front, mark)
    ensures Waiting(AddStep(c, table), base + [BlockText(table)], front, mark)
  {
    TextsSnoc(c.blocks, table);
  }

  // ---- The cursor against what is gathered ----

  function Arranged(inCell: bool, bs: seq<TextBlock>): seq<TextBlock> {
    if inCell then InCellOrder(bs) else bs
  }

  /** Whether the next paragraph takes the cell's first place. */
  function AtFront(inCell: bool, bs: seq<TextBlock>): bool {
    inCell && FirstText(bs) == |bs|
  }

  lemma ArrangedSnoc(inCell: bool, bs: seq<TextBlock>, b: TextBlock)
    ensures Arranged(inCell, bs + [b]) ==
            if b.TextTable? then Arranged(inCell, bs) + [b] else Put(Arranged(inCell, bs), b, AtFront(inCell, bs))
    ensures AtFront(inCell, bs + [b]) == (AtFront(inCell, bs) && b.TextTable?)
  {
    var all := bs + [b];
    assert all[..|bs|] == bs;
    var k := FirstText(bs);
    if inCell && k < |bs| {
      assert all[..k] == bs[..k] && all[k + 1..] == bs[k + 1..] + [b];
    } else if inCell && !b.TextTable? {
      assert all[..k] == bs && all[k + 1..] == [];
      assert ([TextParagraph("", None)] + bs)[0 := b] == [b] + bs;
    }
  }

  /** Preformatted text is never empty where it is gathered. */
  predicate Proper(line: seq<Token>) {
    forall i | 0 <= i < |line| && line[i].Verbatim? :: line[i].text != ""
  }

  ghost predicate Matches(c: CursorState, g: Gathered, inCell: bool) {
    && Proper(g.line)
    && var base, front, l := Arranged(inCell, g.done), AtFront(inCell, g.done), Run(EMPTY_LINE, g.line);
       if Opens(g.line) then Writing(c, base, front, g.mark, l)
       else Waiting(c, base, front, g.mark) && l == EMPTY_LINE
  }

  lemma ParagraphTextIsRun(line: seq<Token>)
    ensures ParagraphText(line) == Run(EMPTY_LINE, line).out
  {
    if Flowing(line) { RunIsRender(line); }
  }

  /** What `Finish` leaves: closing, in terms of what is gathered. */
  lemma FinishMatches(c: CursorState, g: Gathered, inCell: bool)
    requires Matches(c, g, inCell)
    ensures Matches(CloseStep(c), Finish(g), inCell)
    ensures Waiting(CloseStep(c), Arranged(inCell, Finish(g).done), AtFront(inCell, Finish(g).done), Finish(g).mark)
  {
    hide Writing, Waiting, Arranged, AtFront, Run;
    var base, front, l := Arranged(inCell, g.done), AtFront(inCell, g.done), Run(EMPTY_LINE, g.line);
    RunNothing();
    if Opens(g.line) {
      ParagraphTextIsRun(g.line);
      CloseWriting(c, base, front, g.mark, l);
      ArrangedSnoc(inCell, g.done, TextParagraph(ParagraphText(g.line), g.mark));
    } else {
      CloseWaiting(c, base, front, g.mark);
    }
  }

  lemma RunNothing()
    ensures Run(EMPTY_LINE, []) == EMPTY_LINE
  {
  }

  lemma TextMatches(c: CursorState, g: Gathered, inCell: bool, format: Format, preformatted: bool, raw: string)
    requires Matches(c, g, inCell)
    ensures Matches(TextNodeStep(c, format, preformatted, raw), g.(line := g.line + TextTokens(raw, preformatted)), inCell)
  {
    var base, front, l := Arranged(inCell, g.done), AtFront(inCell, g.done), Run(EMPTY_LINE, g.line);
    var line := g.line + TextTokens(raw, preformatted);
    RunSettled(EMPTY_LINE, g.line);
    NodeLineIsRun(l, preformatted, raw);
    RunConcat(EMPTY_LINE, g.line, TextTokens(raw, preformatted));
    ProperTokens(g.line, raw, preformatted);
    OpensRun(g.line);
    OpensRun(line);
    hide Writing, Waiting, Arranged, AtFront, Run, TextNodeStep, NodeLine, Opens, TextTokens;
    if Opens(g.line) {
      TextWriting(c, base, front, g.mark, l, format, preformatted, raw);
      OpensMore(g.line, TextTokens(raw, preformatted));
    } else {
      TextWaiting(c, base, front, g.mark, format, preformatted, raw);
    }
  }

  lemma OpensMore(line: seq<Token>, more: seq<Token>)
    requires Opens(line)
    ensures Opens(line + more)
  {
    var i :| 0 <= i < |line| && OpensOn(line[i]);
    assert OpensOn((line + more)[i]);
  }

  lemma OpensConcat(line: seq<Token>, more: seq<Token>)
    ensures Opens(line + more) <==> Opens(line) || Opens(more)
  {
    if Opens(line) { OpensMore(line, more); }
    if i :| 0 <= i < |more| && OpensOn(more[i]) { assert OpensOn((line + more)[|line| + i]); }
    if i :| 0 <= i < |line + more| && OpensOn((line + more)[i]) {
      assert i < |line| ==> OpensOn(line[i]);
      assert i >= |line| ==> OpensOn(more[i - |line|]);
    }
  }

  lemma NodeLineIsRun(l: Line, preformatted: bool, raw: string)
    requires Settled(l)
    ensures NodeLine(l, preformatted, raw) == Run(l, TextTokens(raw, preformatted))
  {
    if !preformatted {
      TextIsChars(l, raw);
    } else {
      var body := Strip(Clean(raw), '\n');
      assert [Verbatim(body)][..0] == [];
    }
  }

  lemma {:induction false} CharsFlow(s: string)
    ensures Flowing(Chars(s))
  {
    if s != "" { CharsFlow(s[..|s| - 1]); }
  }

  lemma ProperTokens(line: seq<Token>, raw: string, preformatted: bool)
    requires Proper(line)
    ensures Proper(line + TextTokens(raw, preformatted))
  {
    CharsFlow(raw);
  }

  lemma BreakMatches(c: CursorState, g: Gathered, inCell: bool)
    requires Matches(c, g, inCell)
    ensures Matches(LineBreakStep(c), g.(line := g.line + [Br]), inCell)
  {
    var base, front := Arranged(inCell, g.done), AtFront(inCell, g.done);
    RunSnoc(EMPTY_LINE, g.line, Br);
    OpensSnoc(g.line, Br);
    hide Writing, Waiting, Arranged, AtFront, Run, LineBreakStep, Opens;
    if Opens(g.line) {
      BreakWriting(c, base, front, g.mark, Run(EMPTY_LINE, g.line));
    } else {
      BreakWaiting(c, base, front, g.mark);
    }
  }

  lemma RuleMatches(c: CursorState, g: Gathered, inCell: bool)
    requires Matches(c, g, inCell)
    ensures var f := Finish(g);
            Matches(RuleStep(c), f.(done := f.done + [TextRule]), inCell)
  {
    FinishMatches(c, g, inCell);
    var f := Finish(g);
    RuleWaiting(CloseStep(c), Arranged(inCell, f.done), AtFront(inCell, f.done), f.mark);
    ArrangedSnoc(inCell, f.done, TextRule);
    RunNothing();
  }

  lemma TableMatches(c: CursorState, g: Gathered, inCell: bool, table: Block)
    requires Matches(c, g, inCell) && table.Table?
    ensures var f := Finish(g);
            Matches(AddStep(CloseStep(c), table), f.(done := f.done + [BlockText(table)]), inCell)
  {
    FinishMatches(c, g, inCell);
    var f := Finish(g);
    AddWaiting(CloseStep(c), Arranged(inCell, f.done), AtFront(inCell, f.done), f.mark, table);
    ArrangedSnoc(inCell, f.done, BlockText(table));
    RunNothing();
  }

  lemma {:induction false} PlayOneMatches(c: CursorState, g: Gathered, inCell: bool, e: Event)
    requires Matches(c, g, inCell) && ValidState(c)
    ensures Matches(PlayOne(c, e), CollectOne(g, e), inCell)
    decreases e, 1
  {
    hide Matches, Finish, RuleStep, AddStep, CloseStep, LineBreakStep, TextNodeStep, BlockText;
    match e {
      case TextNode(raw, format, preformatted) => TextMatches(c, g, inCell, format, preformatted, raw);
      case LineBreak => BreakMatches(c, g, inCell);
      case Boundary => FinishMatches(c, g, inCell);
      case ListBegin(_, _, _) => FinishMatches(c, g, inCell);
      case ListEnd => FinishMatches(c, g, inCell);
      case RuleLine => RuleMatches(c, g, inCell);
      case ItemBegin(mark) => MarkMatches(c, g, inCell, Some(mark));
      case ItemEnd =>
        MarkMatches(c, g, inCell, None);
        EndMatches(c);
      case TableBlock(height, width, cells) =>
        CellsMatch(cells);
        TableText(height, width, PlayCells(cells));
        TableMatches(c, g, inCell, Table(height, width, PlayCells(cells)));
    }
  }

  lemma EndMatches(c: CursorState)
    requires ValidState(c)
    ensures CloseStep(c).(numbering := None) == CloseStep(c.(numbering := None))
  {
  }

  lemma MarkMatches(c: CursorState, g: Gathered, inCell: bool, mark: Option<ItemMark>)
    requires Matches(c, g, inCell)
    ensures Matches(CloseStep(c).(numbering := mark), Finish(g).(mark := mark), inCell)
  {
    FinishMatches(c, g, inCell);
  }

  lemma TableText(height: nat, width: nat, cells: seq<Cell>)
    ensures BlockText(Table(height, width, cells)) == TextTable(height, width, CellsText(cells))
  {
  }

  lemma {:induction false} PlayMatches(c: CursorState, g: Gathered, inCell: bool, es: seq<Event>)
    requires Matches(c, g, inCell) && ValidState(c)
    ensures Matches(Play(c, es), Collect(g, es), inCell)
    decreases es, 0
  {
    hide Matches, PlayOne, CollectOne;
    if es != [] {
      PlayMatches(c, g, inCell, es[..|es| - 1]);
      PlayOneMatches(Play(c, es[..|es| - 1]), Collect(g, es[..|es| - 1]), inCell, es[|es| - 1]);
    }
  }

  /** The page's blocks are the paragraphs, rules and tables gathered between boundaries. */
  lemma {:induction false} PageText(es: seq<Event>)
    ensures Texts(Play(PAGE, es).blocks) == PageBlocks(es)
    decreases es, 2
  {
    assert Matches(PAGE, NOTHING, false);
    PlayMatches(PAGE, NOTHING, false, es);
    FinishMatches(Play(PAGE, es), Collect(NOTHING, es), false);
  }

  lemma StartOfCell()
    ensures Matches(CELL, NOTHING, true)
  {
    assert Texts([]) == [] && CELL.blocks[..0] == [];
  }

  lemma {:induction false} PaddedTexts(blocks: seq<Block>)
    ensures Texts(Padded(blocks)) == PaddedText(Texts(blocks))
  {
    hide BlockText;
    if blocks != [] {
      var init, last := blocks[..|blocks| - 1], blocks[|blocks| - 1];
      PaddedTexts(init);
      assert Texts(blocks)[..|blocks| - 1] == Texts(init);
      TextsMore(Padded(init), last);
      TextsMore(Padded(init) + [last], Paragraph([], None));
      BlockKinds(last);
      assert Padded(init) + [last, Paragraph([], None)] == Padded(init) + [last] + [Paragraph([], None)];
    }
  }

  lemma TextsMore(blocks: seq<Block>, b: Block)
    ensures Texts(blocks + [b]) == Texts(blocks) + [BlockText(b)]
  {
    assert (blocks + [b])[..|blocks|] == blocks;
  }

  lemma BlockKinds(b: Block)
    ensures b.Table? <==> BlockText(b).TextTable?
    ensures BlockText(Paragraph([], None)) == TextParagraph("", None)
  {
  }

  /** A cell's blocks are the same, with its first paragraph first and an empty one after each
      table. */
  lemma {:induction false} CellText(es: seq<Event>)
    ensures Texts(Padded(Play(CELL, es).blocks)) == CellBlocks(es)
    decreases es, 2
  {
    hide Padded, PaddedText;
    PaddedTexts(Play(CELL, es).blocks);
    StartOfCell();
    PlayMatches(CELL, NOTHING, true, es);
    FinishMatches(Play(CELL, es), Collect(NOTHING, es), true);
  }

  lemma {:induction false} CellsMatch(cells: seq<CellEvents>)
    ensures CellsText(PlayCells(cells)) == CollectCells(cells)
    decreases cells, 0
  {
    if cells != [] {
      var n := |cells| - 1;
      var cell := cells[n];
      CellsMatch(cells[..n]);
      CellText(cell.events);
      var played := PlayCells(cells[..n]) + [Cell(cell.place, Padded(Play(CELL, cell.events).blocks))];
      assert played[..|played| - 1] == PlayCells(cells[..n]);
    }
  }
}
