/** The walk over a translation's HTML: `_Writer.children`, `node`, `_block`, `_list`,
    `_list_item`, `_table` and `_cell` of worker/translation_docx.py, as the events they
    send the cursor.

    An element's text and its children's tails are children here, in their order. */
module HtmlWalk {
  import opened Options
  import opened Document
  import TableGrid

  /** What a tag is to the walk. `Block`, with `pre`: the sections, headings, paragraphs,
      quotes and `pre`. `Inline`: everything not listed. */
  datatype Tag =
    | Skipped | LineBreakTag | Image | RuleTag | TableTag | Unordered | Ordered(start: nat) | Item
    | BlockTag(pre: bool) | Caption | RowGroup | Row | CellTag(span: TableGrid.CellSpan) | Inline

  datatype Html =
    | Text(text: string)
    | Comment
    | Element(tag: Tag, style: Format, kids: seq<Html>)

  /** What an element passes down. `level` is -1 outside any list. */
  datatype Context = Context(format: Format, pre: bool, depth: nat, level: int, list: Option<nat>)

  const TOP := Context(PLAIN, false, 0, -1, None)

  /** A list definition: a numbered list has its own, with its start; bullets share one. */
  datatype ListDef = ListDef(ordered: bool, start: nat)

  datatype Numbering = Numbering(defs: seq<ListDef>, bullet: Option<nat>)

  datatype Walked = Walked(events: seq<Event>, numbering: Numbering)

  // ---- Reading the tree ----

  function Size(n: Html): (size: nat)
    ensures size >= 1
    decreases n, 1
  {
    if n.Element? then 1 + SizeAll(n.kids) else 1
  }

  function SizeAll(kids: seq<Html>): nat
    decreases kids, 0
  {
    if kids == [] then 0 else SizeAll(kids[..|kids| - 1]) + Size(kids[|kids| - 1])
  }

  predicate Is(n: Html, tag: Tag) {
    n.Element? && n.tag == tag
  }

  predicate IsCell(n: Html) {
    n.Element? && n.tag.CellTag?
  }

  function Elements(kids: seq<Html>): (out: seq<Html>)
    ensures SizeAll(out) <= SizeAll(kids)
  {
    if kids == [] then []
    else
      var before, last := Elements(kids[..|kids| - 1]), kids[|kids| - 1];
      if last.Element? then
        assert (before + [last])[..|before|] == before;
        before + [last]
      else before
  }

  /** `./caption` */
  function Captions(kids: seq<Html>): (out: seq<Html>)
    ensures SizeAll(out) <= SizeAll(kids)
  {
    if kids == [] then []
    else
      var before, last := Captions(kids[..|kids| - 1]), kids[|kids| - 1];
      if Is(last, Caption) then
        assert (before + [last])[..|before|] == before;
        before + [last]
      else before
  }

  /** `./td | ./th` */
  function Cells(kids: seq<Html>): (out: seq<Html>)
    ensures SizeAll(out) <= SizeAll(kids)
    ensures forall i | 0 <= i < |out| :: IsCell(out[i])
  {
    if kids == [] then []
    else
      var before, last := Cells(kids[..|kids| - 1]), kids[|kids| - 1];
      if IsCell(last) then
        assert (before + [last])[..|before|] == before;
        before + [last]
      else before
  }

  /** `./tr` of a row group, each as its cells. */
  function GroupRows(kids: seq<Html>): seq<seq<Html>> {
    if kids == [] then []
    else
      var last := kids[|kids| - 1];
      GroupRows(kids[..|kids| - 1]) + if Is(last, Row) then [Cells(last.kids)] else []
  }

  /** `./tr | ./thead/tr | ./tbody/tr | ./tfoot/tr`, each as its cells, in document order. */
  function Rows(kids: seq<Html>): seq<seq<Html>> {
    if kids == [] then []
    else
      var last := kids[|kids| - 1];
      Rows(kids[..|kids| - 1]) +
      if Is(last, Row) then [Cells(last.kids)]
      else if Is(last, RowGroup) then GroupRows(last.kids)
      else []
  }

  function Flat(rows: seq<seq<Html>>): seq<Html> {
    if rows == [] then [] else Flat(rows[..|rows| - 1]) + rows[|rows| - 1]
  }

  function SpansOf(cells: seq<Html>): (out: seq<TableGrid.CellSpan>)
    ensures |out| == |cells|
  {
    seq(|cells|, i requires 0 <= i < |cells| =>
      if IsCell(cells[i]) then cells[i].tag.span else TableGrid.CellSpan(None, None))
  }

  function Spans(rows: seq<seq<Html>>): (out: seq<seq<TableGrid.CellSpan>>)
    ensures |out| == |rows|
    ensures forall i | 0 <= i < |rows| :: out[i] == SpansOf(rows[i])
  {
    seq(|rows|, i requires 0 <= i < |rows| => SpansOf(rows[i]))
  }

  lemma {:induction false} SizeAllConcat(a: seq<Html>, b: seq<Html>)
    ensures SizeAll(a + b) == SizeAll(a) + SizeAll(b)
  {
    if b == [] {
      assert a + b == a;
    } else {
      SizeAllConcat(a, b[..|b| - 1]);
      assert (a + b)[..|a + b| - 1] == a + b[..|b| - 1];
    }
  }

  lemma {:induction false} FlatConcat(a: seq<seq<Html>>, b: seq<seq<Html>>)
    ensures Flat(a + b) == Flat(a) + Flat(b)
  {
    if b == [] {
      assert a + b == a;
    } else {
      FlatConcat(a, b[..|b| - 1]);
      assert (a + b)[..|a + b| - 1] == a + b[..|b| - 1];
    }
  }

  lemma FlatOne(row: seq<Html>)
    ensures Flat([row]) == row
  {
    assert [row][..0] == [];
  }

  lemma {:induction false} GroupRowsSmaller(kids: seq<Html>)
    ensures SizeAll(Flat(GroupRows(kids))) <= SizeAll(kids)
  {
    if kids != [] {
      var n := |kids| - 1;
      GroupRowsSmaller(kids[..n]);
      var last := kids[n];
      var more := if Is(last, Row) then [Cells(last.kids)] else [];
      FlatConcat(GroupRows(kids[..n]), more);
      SizeAllConcat(Flat(GroupRows(kids[..n])), Flat(more));
      if Is(last, Row) { FlatOne(Cells(last.kids)); }
    }
  }

  lemma {:induction false} RowsSmaller(kids: seq<Html>)
    ensures SizeAll(Flat(Rows(kids))) <= SizeAll(kids)
  {
    if kids != [] {
      var n := |kids| - 1;
      RowsSmaller(kids[..n]);
      var last := kids[n];
      var more := if Is(last, Row) then [Cells(last.kids)]
                  else if Is(last, RowGroup) then GroupRows(last.kids) else [];
      FlatConcat(Rows(kids[..n]), more);
      SizeAllConcat(Flat(Rows(kids[..n])), Flat(more));
      if Is(last, Row) { FlatOne(Cells(last.kids)); } else if Is(last, RowGroup) { GroupRowsSmaller(last.kids); }
    }
  }

  // ---- The walk ----

  /** `_list_numbering`: the definition a new list uses. */
  function NewList(n: Numbering, ordered: bool, start: nat): (nat, Numbering) {
    if !ordered && n.bullet.Some? then (n.bullet.value, n)
    else
      var id := |n.defs|;
      (id, Numbering(n.defs + [ListDef(ordered, start)], if ordered then n.bullet else Some(id)))
  }

  predicate PreInside(tag: Tag, pre: bool) {
    pre || tag == BlockTag(true)
  }

  function ElementFormat(parent: Format, n: Html): Format
    requires n.Element?
  {
    var f := Format(parent.underline || n.style.underline, parent.strike || n.style.strike,
                    parent.shaded || n.style.shaded, parent.linked || n.style.linked);
    // A table's shading is the cells', not the text's.
    if n.tag.TableTag? || n.tag.RowGroup? || n.tag.Row? || n.tag.CellTag? || n.tag.Caption?
    then f.(shaded := parent.shaded) else f
  }

  function Max(a: int, b: int): int { if a > b then a else b }

  function Min(a: int, b: int): int { if a < b then a else b }

  /** `list_level` of a new list: one deeper, at most the ninth. */
  function Deeper(level: int): int {
    Min(level + 1, 8)
  }

  function Inside(parent: Context, n: Html): Context
    requires n.Element?
  {
    parent.(depth := parent.depth + 1, format := ElementFormat(parent.format, n))
  }

  function InsideCell(ctx: Context, cell: Html): Context
    requires cell.Element?
  {
    ctx.(format := ElementFormat(ctx.format, cell), level := -1, list := None)
  }

  function Mark(ctx: Context): ItemMark
    requires ctx.list.Some?
  {
    ItemMark(ctx.list.value, Max(0, ctx.level))
  }

  function WalkNode(n: Html, parent: Context, num: Numbering): Walked
    decreases Size(n), 0
  {
    match n
    case Text(text) => Walked([TextNode(text, parent.format, parent.pre)], num)
    case Comment => Walked([], num)
    case Element(tag, _, kids) =>
      var ctx := Inside(parent, n);
      match tag
      case Skipped => Walked([], num)
      case LineBreakTag => Walked([LineBreak], num)
      case Image => Walked([], num)
      case RuleTag => Walked([RuleLine], num)
      case TableTag => WalkTable(kids, ctx, num)
      case Unordered => WalkList(kids, ctx, num, false, 1)
      case Ordered(start) => WalkList(kids, ctx, num, true, Max(1, start))
      case Item => WalkItem(kids, ctx, num)
      case BlockTag(pre) => WalkBlock(kids, if pre then ctx.(pre := true) else ctx, num)
      case Caption => WalkBlock(kids, ctx, num)
      case _ => WalkKids(kids, ctx, num)
  }

  function WalkKids(kids: seq<Html>, ctx: Context, num: Numbering): Walked
    decreases SizeAll(kids), 1
  {
    if kids == [] then Walked([], num)
    else
      var before := WalkKids(kids[..|kids| - 1], ctx, num);
      var last := WalkNode(kids[|kids| - 1], ctx, before.numbering);
      Walked(before.events + last.events, last.numbering)
  }

  function WalkBlock(kids: seq<Html>, ctx: Context, num: Numbering): Walked
    decreases SizeAll(kids), 2
  {
    var inner := WalkKids(kids, ctx, num);
    Walked([Boundary] + inner.events + [Boundary], inner.numbering)
  }

  function WalkList(kids: seq<Html>, ctx: Context, num: Numbering, ordered: bool, start: nat): Walked
    decreases SizeAll(kids), 2
  {
    var (id, numbered) := NewList(num, ordered, start);
    var inner := WalkKids(Elements(kids), ctx.(level := Deeper(ctx.level), list := Some(id)), numbered);
    Walked([ListBegin(id, ordered, start)] + inner.events + [ListEnd], inner.numbering)
  }

  /** An item outside any list is a list of its own, of one bullet. */
  function WalkItem(kids: seq<Html>, ctx: Context, num: Numbering): Walked
    decreases SizeAll(kids), 2
  {
    if ctx.list.Some? then
      var inner := WalkKids(kids, ctx, num);
      Walked([ItemBegin(Mark(ctx))] + inner.events + [ItemEnd], inner.numbering)
    else
      var (id, numbered) := NewList(num, false, 1);
      var own := ctx.(level := 0, list := Some(id));
      var inner := WalkKids(kids, own, numbered);
      Walked([ListBegin(id, false, 1)] + ([ItemBegin(Mark(own))] + inner.events + [ItemEnd]) + [ListEnd], inner.numbering)
  }

  function TablePlaces(kids: seq<Html>): seq<Placement> {
    TableGrid.Placements(Spans(Rows(kids)))
  }

  ghost predicate AllCells(row: seq<Html>) {
    forall i | 0 <= i < |row| :: IsCell(row[i])
  }

  lemma {:induction false} GroupRowsAreCells(kids: seq<Html>)
    ensures forall i | 0 <= i < |GroupRows(kids)| :: AllCells(GroupRows(kids)[i])
  {
    if kids != [] { GroupRowsAreCells(kids[..|kids| - 1]); }
  }

  lemma {:induction false} RowsAreCells(kids: seq<Html>)
    ensures forall i | 0 <= i < |Rows(kids)| :: AllCells(Rows(kids)[i])
  {
    if kids != [] {
      var last := kids[|kids| - 1];
      RowsAreCells(kids[..|kids| - 1]);
      if last.Element? { GroupRowsAreCells(last.kids); }
    }
  }

  lemma {:induction false} FlatCells(rows: seq<seq<Html>>)
    requires forall i | 0 <= i < |rows| :: AllCells(rows[i])
    ensures AllCells(Flat(rows))
    ensures |Flat(rows)| == TableGrid.CellsBefore(Spans(rows), |rows|)
  {
    if rows != [] {
      var n := |rows| - 1;
      FlatCells(rows[..n]);
      CellsBeforePrefix(Spans(rows), Spans(rows[..n]), n);
    }
  }

  lemma {:induction false} CellsBeforePrefix(a: seq<seq<TableGrid.CellSpan>>, b: seq<seq<TableGrid.CellSpan>>, n: nat)
    requires n <= |a| && n <= |b| && forall i | 0 <= i < n :: |a[i]| == |b[i]|
    ensures TableGrid.CellsBefore(a, n) == TableGrid.CellsBefore(b, n)
  {
    if n > 0 { CellsBeforePrefix(a, b, n - 1); }
  }

  /** The table's cells, row by row, have one placement each. */
  lemma OnePlaceEach(kids: seq<Html>)
    ensures |TablePlaces(kids)| == |Flat(Rows(kids))| && AllCells(Flat(Rows(kids)))
  {
    RowsAreCells(kids);
    FlatCells(Rows(kids));
    TableGrid.AllocationIsATable(Spans(Rows(kids)));
  }

  /** A table has no columns exactly when its rows have no cells. */
  lemma NoColumns(kids: seq<Html>)
    ensures TableGrid.Width(TablePlaces(kids)) == 0 <==> Flat(Rows(kids)) == []
  {
    var places := TablePlaces(kids);
    OnePlaceEach(kids);
    TableGrid.AllocationIsATable(Spans(Rows(kids)));
    TableGrid.EdgeBounds(places);
    if places != [] { assert places[0].columns >= 1; }
  }

  function WalkTable(kids: seq<Html>, ctx: Context, num: Numbering): Walked
    decreases SizeAll(kids), 2
  {
    var places := TablePlaces(kids);
    if Rows(kids) == [] then WalkKids(kids, ctx, num)
    else if TableGrid.Width(places) == 0 then Walked([Boundary], num)
    else
      var captions := WalkKids(Captions(kids), ctx, num);
      RowsSmaller(kids);
      OnePlaceEach(kids);
      var (cells, numbered) := WalkCells(Flat(Rows(kids)), places, ctx, captions.numbering);
      Walked([Boundary] + captions.events + [TableBlock(|Rows(kids)|, TableGrid.Width(places), cells)], numbered)
  }

  /** The cells, each walked from a place of its own. */
  function WalkCells(cells: seq<Html>, places: seq<Placement>, ctx: Context, num: Numbering): (out: (seq<CellEvents>, Numbering))
    requires |cells| <= |places| && forall i | 0 <= i < |cells| :: IsCell(cells[i])
    ensures |out.0| == |cells|
    decreases SizeAll(cells), 1
  {
    if cells == [] then ([], num)
    else
      var k := |cells| - 1;
      assert IsCell(cells[k]);
      assert Size(cells[k]) == 1 + SizeAll(cells[k].kids);
      var (before, numbered) := WalkCells(cells[..k], places, ctx, num);
      var inner := WalkKids(cells[k].kids, InsideCell(ctx, cells[k]), numbered);
      (before + [CellEvents(places[k], inner.events)], inner.numbering)
  }
}
