/** The document being written and the cursor that writes it: `_Cursor` and the writing
    half of `_Writer` in worker/translation_docx.py.

    `Cursor` is the object the source has; its methods are proved against functions on
    `CursorState`. A walk over HTML reaches the cursor only through the events below, so a
    whole document is `Play(PAGE, events)`. */
module Document {
  import opened Options
  import opened Whitespace
  import TableGrid

  type Placement = TableGrid.Placement

  /** The parts of a run's format the writing of text looks at. */
  datatype Format = Format(underline: bool, strike: bool, shaded: bool, linked: bool)

  /** Whether a space in this format would be drawn differently from a plain one. */
  predicate Drawn(f: Format) {
    f.underline || f.strike || f.shaded || f.linked
  }

  const PLAIN := Format(false, false, false, false)

  datatype TextRun = TextRun(text: string, format: Format)

  /** The numbering of a list item's paragraph: which list, how deep. */
  datatype ItemMark = ItemMark(numId: nat, level: nat)

  datatype Block =
    | Paragraph(runs: seq<TextRun>, mark: Option<ItemMark>)
    | Rule
    | Table(height: nat, width: nat, cells: seq<Cell>)

  datatype Cell = Cell(place: Placement, blocks: seq<Block>)

  /** A cursor over one container. `spare`: the empty paragraph a cell starts with, its first
      block, has not been used. `paragraph`: the block being written. */
  datatype CursorState = CursorState(
    blocks: seq<Block>, spare: bool, paragraph: Option<nat>,
    hasText: bool, space: bool, breaks: nat, numbering: Option<ItemMark>)

  const PAGE := CursorState([], false, None, false, false, 0, None)
  const CELL := CursorState([Paragraph([], None)], true, None, false, false, 0, None)

  ghost predicate ValidState(c: CursorState) {
    && (c.spare ==> c.blocks != [] && c.blocks[0] == Paragraph([], None) && c.paragraph.None?)
    && (c.paragraph.Some? ==> c.paragraph.value < |c.blocks| && c.blocks[c.paragraph.value].Paragraph?)
    && (c.paragraph.None? ==> !c.hasText && !c.space && c.breaks == 0)
  }

  // ---- The cursor's steps, as functions ----

  function OpenStep(c: CursorState): (o: CursorState)
    requires ValidState(c)
    ensures ValidState(o) && o.paragraph.Some?
  {
    if c.paragraph.Some? then c
    else if c.spare then
      c.(blocks := c.blocks[0 := Paragraph([], c.numbering)], spare := false, paragraph := Some(0),
         hasText := false, numbering := None)
    else
      c.(blocks := c.blocks + [Paragraph([], c.numbering)], paragraph := Some(|c.blocks|),
         hasText := false, numbering := None)
  }

  function WriteStep(c: CursorState, format: Format, text: string): (o: CursorState)
    requires ValidState(c)
    ensures ValidState(o) && o.paragraph.Some?
  {
    var o := OpenStep(c);
    var at := o.paragraph.value;
    var p := o.blocks[at];
    o.(blocks := o.blocks[at := p.(runs := p.runs + [TextRun(Breaks(o.breaks) + text, format)])],
       breaks := 0, hasText := true)
  }

  /** A text node. Its leading space is written on its own, plain, when the text is drawn. */
  function TextNodeStep(c: CursorState, format: Format, preformatted: bool, raw: string): (o: CursorState)
    requires ValidState(c)
    ensures ValidState(o)
  {
    var text := Clean(raw);
    if raw == "" then c
    else if preformatted then
      if Strip(text, '\n') != "" then WriteStep(c, format, Strip(text, '\n')) else c
    else
      var collapsed := Collapse(text);
      var core := Strip(collapsed, ' ');
      if core == "" then
        if collapsed != "" && c.hasText then c.(space := true) else c
      else
        var lead := (collapsed[0] == ' ' || c.space) && c.hasText;
        var written :=
          if lead && Drawn(format) then WriteStep(WriteStep(c, PLAIN, " "), format, core)
          else WriteStep(c, format, (if lead then " " else "") + core);
        written.(space := EndsWith(collapsed, ' '))
  }

  function LineBreakStep(c: CursorState): (o: CursorState)
    requires ValidState(c)
    ensures ValidState(o)
  {
    var o := OpenStep(c);
    o.(breaks := o.breaks + 1, hasText := false, space := false)
  }

  function CloseStep(c: CursorState): (o: CursorState)
    requires ValidState(c)
    ensures ValidState(o)
  {
    c.(paragraph := None, hasText := false, space := false, breaks := 0)
  }

  function RuleStep(c: CursorState): (o: CursorState)
    requires ValidState(c)
    ensures ValidState(o)
  {
    var o := CloseStep(c);
    if o.spare then o.(blocks := o.blocks[0 := Rule], spare := false) else o.(blocks := o.blocks + [Rule])
  }

  function AddStep(c: CursorState, table: Block): (o: CursorState)
    requires ValidState(c)
    ensures ValidState(o)
  {
    c.(blocks := c.blocks + [table])
  }

  // ---- The cursor ----

  class Cursor {
    var blocks: seq<Block>
    var spare: bool
    var paragraph: Option<nat>
    var lineHasText: bool
    var pendingSpace: bool
    var pendingBreaks: nat
    var numbering: Option<ItemMark>

    function State(): CursorState
      reads this
    {
      CursorState(blocks, spare, paragraph, lineHasText, pendingSpace, pendingBreaks, numbering)
    }

    ghost predicate Valid()
      reads this
    {
      ValidState(State())
    }

    /** A cursor over the page. */
    constructor Page()
      ensures Valid() && State() == PAGE
    {
      blocks, spare, paragraph := [], false, None;
      lineHasText, pendingSpace, pendingBreaks, numbering := false, false, 0, None;
    }

    /** A cursor over a table cell, whose first paragraph is there already. */
    constructor InCell()
      ensures Valid() && State() == CELL
    {
      blocks, spare, paragraph := [Paragraph([], None)], true, None;
      lineHasText, pendingSpace, pendingBreaks, numbering := false, false, 0, None;
    }

    method Close()
      requires Valid()
      modifies this
      ensures Valid() && State() == CloseStep(old(State()))
    {
      paragraph, lineHasText, pendingSpace, pendingBreaks := None, false, false, 0;
    }

    method Open() returns (at: nat)
      requires Valid()
      modifies this
      ensures Valid() && State() == OpenStep(old(State())) && paragraph == Some(at)
    {
      if paragraph.Some? { return paragraph.value; }
      var started := Paragraph([], numbering);
      if spare {
        at, spare, blocks := 0, false, blocks[0 := started];
      } else {
        at, blocks := |blocks|, blocks + [started];
      }
      paragraph, lineHasText, numbering := Some(at), false, None;
    }

    method Write(format: Format, text: string)
      requires Valid()
      modifies this
      ensures Valid() && State() == WriteStep(old(State()), format, text)
    {
      var at := Open();
      var p := blocks[at];
      blocks := blocks[at := p.(runs := p.runs + [TextRun(Breaks(pendingBreaks) + text, format)])];
      pendingBreaks, lineHasText := 0, true;
    }

    method Text(format: Format, preformatted: bool, raw: string)
      requires Valid()
      modifies this
      ensures Valid() && State() == TextNodeStep(old(State()), format, preformatted, raw)
    {
      if raw == "" { return; }
      var text := Clean(raw);
      if preformatted {
        var body := Strip(text, '\n');
        if body != "" { Write(format, body); }
        return;
      }
      var collapsed := Collapse(text);
      var core := Strip(collapsed, ' ');
      if core == "" {
        if collapsed != "" && lineHasText { pendingSpace := true; }
        return;
      }
      var lead := (collapsed[0] == ' ' || pendingSpace) && lineHasText;
      if lead && Drawn(format) {
        Write(PLAIN, " ");
        lead := false;
      }
      Write(format, (if lead then " " else "") + core);
      assert "" + core == core;
      pendingSpace := EndsWith(collapsed, ' ');
    }

    method LineBreak()
      requires Valid()
      modifies this
      ensures Valid() && State() == LineBreakStep(old(State()))
    {
      var _ := Open();
      pendingBreaks, lineHasText, pendingSpace := pendingBreaks + 1, false, false;
    }

    method HorizontalRule()
      requires Valid()
      modifies this
      ensures Valid() && State() == RuleStep(old(State()))
    {
      Close();
      if spare {
        spare, blocks := false, blocks[0 := Rule];
      } else {
        blocks := blocks + [Rule];
      }
    }

    method Add(table: Block)
      requires Valid()
      modifies this
      ensures Valid() && State() == AddStep(old(State()), table)
    {
      blocks := blocks + [table];
    }

    method Number(mark: Option<ItemMark>)
      requires Valid()
      modifies this
      ensures Valid() && State() == old(State()).(numbering := mark)
    {
      numbering := mark;
    }
  }

  // ---- What a walk tells the cursor ----

  datatype Event =
    | TextNode(raw: string, format: Format, preformatted: bool)
    | LineBreak
    | Boundary                                      // a block begins or ends
    | RuleLine
    | ListBegin(numId: nat, ordered: bool, start: nat)
    | ListEnd
    | ItemBegin(mark: ItemMark)
    | ItemEnd
    | TableBlock(height: nat, width: nat, cells: seq<CellEvents>)

  datatype CellEvents = CellEvents(place: Placement, events: seq<Event>)

  function PlayOne(c: CursorState, e: Event): (o: CursorState)
    requires ValidState(c)
    ensures ValidState(o)
    decreases e, 1
  {
    match e
    case TextNode(raw, format, preformatted) => TextNodeStep(c, format, preformatted, raw)
    case LineBreak => LineBreakStep(c)
    case Boundary => CloseStep(c)
    case RuleLine => RuleStep(c)
    case ListBegin(_, _, _) => CloseStep(c)
    case ListEnd => CloseStep(c)
    case ItemBegin(mark) => CloseStep(c).(numbering := Some(mark))
    case ItemEnd => CloseStep(c.(numbering := None))
    case TableBlock(height, width, cells) => AddStep(CloseStep(c), Table(height, width, PlayCells(cells)))
  }

  function Play(c: CursorState, es: seq<Event>): (o: CursorState)
    requires ValidState(c)
    ensures ValidState(o)
    decreases es, 0
  {
    if es == [] then c else PlayOne(Play(c, es[..|es| - 1]), es[|es| - 1])
  }

  /** A cell's content: where a table is added to a cell, an empty paragraph comes with it. The
      cursor never looks at one, so they are put in once the cell is done. */
  function Padded(blocks: seq<Block>): seq<Block> {
    if blocks == [] then []
    else
      var last := blocks[|blocks| - 1];
      Padded(blocks[..|blocks| - 1]) + if last.Table? then [last, Paragraph([], None)] else [last]
  }

  function PlayCells(cells: seq<CellEvents>): (out: seq<Cell>)
    ensures |out| == |cells|
    decreases cells, 0
  {
    if cells == [] then []
    else
      var cell := cells[|cells| - 1];
      PlayCells(cells[..|cells| - 1]) + [Cell(cell.place, Padded(Play(CELL, cell.events).blocks))]
  }

  lemma {:induction false} PlayConcat(c: CursorState, a: seq<Event>, b: seq<Event>)
    requires ValidState(c)
    ensures Play(c, a + b) == Play(Play(c, a), b)
  {
    hide PlayOne;
    if b == [] {
      assert a + b == a;
    } else {
      PlayConcat(c, a, b[..|b| - 1]);
      assert (a + b)[..|a + b| - 1] == a + b[..|b| - 1];
    }
  }

  lemma PlaySnoc(c: CursorState, es: seq<Event>, e: Event)
    requires ValidState(c)
    ensures Play(c, es + [e]) == PlayOne(Play(c, es), e)
  {
    hide PlayOne;
    assert (es + [e])[..|es|] == es;
  }
}
