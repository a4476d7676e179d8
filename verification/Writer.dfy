/** The writer: `_Writer` of worker/translation_docx.py, walking the HTML with a cursor and
    counting what it visits, and `html_to_docx`, which gives the document or refuses it.

    Each method is proved to have played the events of its part of the tree, and to refuse
    exactly when that part is over a limit. */
module Writer {
  import opened Options
  import opened Document
  import opened DocumentText
  import opened HtmlWalk
  import opened ContentKept
  import TableGrid

  const MAX_NODES := 200_000
  const MAX_DEPTH := 60
  const MAX_TABLE_CELLS := 20_000

  // ---- The limits ----

  /** How many elements the walk visits. */
  function Visits(n: Html): nat
    decreases Size(n), 0
  {
    if !n.Element? then 0
    else if n.tag.Skipped? || n.tag.LineBreakTag? || n.tag.Image? || n.tag.RuleTag? then 1
    else if n.tag.TableTag? && Rows(n.kids) != [] then
      RowsSmaller(n.kids);
      OnePlaceEach(n.kids);
      if TableGrid.Width(TablePlaces(n.kids)) == 0 then 1
      else 1 + VisitsAll(Captions(n.kids)) + VisitsCells(Flat(Rows(n.kids)))
    else if n.tag.Unordered? || n.tag.Ordered? then 1 + VisitsAll(Elements(n.kids))
    else 1 + VisitsAll(n.kids)
  }

  function VisitsAll(kids: seq<Html>): nat
    decreases SizeAll(kids), 1
  {
    if kids == [] then 0 else VisitsAll(kids[..|kids| - 1]) + Visits(kids[|kids| - 1])
  }

  function VisitsCells(cells: seq<Html>): nat
    requires forall i | 0 <= i < |cells| :: IsCell(cells[i])
    decreases SizeAll(cells), 1
  {
    if cells == [] then 0
    else
      var k := |cells| - 1;
      assert IsCell(cells[k]) && Size(cells[k]) == 1 + SizeAll(cells[k].kids);
      VisitsCells(cells[..k]) + VisitsAll(cells[k].kids)
  }

  predicate TableFits(height: nat, width: nat) {
    width <= TableGrid.MAX_COLUMNS && height * width <= MAX_TABLE_CELLS
  }

  /** No element is nested too deep, and no table is too large. */
  predicate Fits(n: Html, depth: nat)
    decreases Size(n), 0
  {
    n.Element? ==>
      && depth <= MAX_DEPTH
      && if n.tag.Skipped? || n.tag.LineBreakTag? || n.tag.Image? || n.tag.RuleTag? then true
         else if n.tag.TableTag? && Rows(n.kids) != [] then
           RowsSmaller(n.kids);
           OnePlaceEach(n.kids);
           var width := TableGrid.Width(TablePlaces(n.kids));
           width == 0 || (TableFits(|Rows(n.kids)|, width) && FitAll(Captions(n.kids), depth + 1)
                          && FitCells(Flat(Rows(n.kids)), depth + 1))
         else if n.tag.Unordered? || n.tag.Ordered? then FitAll(Elements(n.kids), depth + 1)
         else FitAll(n.kids, depth + 1)
  }

  predicate FitAll(kids: seq<Html>, depth: nat)
    decreases SizeAll(kids), 1
  {
    kids != [] ==> FitAll(kids[..|kids| - 1], depth) && Fits(kids[|kids| - 1], depth)
  }

  predicate FitCells(cells: seq<Html>, depth: nat)
    requires forall i | 0 <= i < |cells| :: IsCell(cells[i])
    decreases SizeAll(cells), 1
  {
    if cells == [] then true
    else
      var k := |cells| - 1;
      assert IsCell(cells[k]) && Size(cells[k]) == 1 + SizeAll(cells[k].kids);
      FitCells(cells[..k], depth) && FitAll(cells[k].kids, depth)
  }

  /** What is over a limit in part is over it as a whole. */
  lemma {:induction false} PrefixWithinLimits(kids: seq<Html>, i: nat, depth: nat)
    requires i <= |kids|
    ensures VisitsAll(kids[..i]) <= VisitsAll(kids)
    ensures FitAll(kids, depth) ==> FitAll(kids[..i], depth)
    decreases |kids| - i
  {
    hide Visits, Fits;
    if i == |kids| {
      assert kids[..i] == kids;
    } else {
      PrefixWithinLimits(kids, i + 1, depth);
      assert kids[..i + 1][..i] == kids[..i];
    }
  }

  lemma {:induction false} CellsPrefixWithinLimits(cells: seq<Html>, i: nat, depth: nat)
    requires i <= |cells| && forall i | 0 <= i < |cells| :: IsCell(cells[i])
    ensures VisitsCells(cells[..i]) <= VisitsCells(cells)
    ensures FitCells(cells, depth) ==> FitCells(cells[..i], depth)
    decreases |cells| - i
  {
    if i == |cells| {
      assert cells[..i] == cells;
    } else {
      CellsPrefixWithinLimits(cells, i + 1, depth);
      assert cells[..i + 1][..i] == cells[..i];
    }
  }

  lemma {:induction false} SizeAllMember(kids: seq<Html>, i: nat)
    requires i < |kids|
    ensures Size(kids[i]) <= SizeAll(kids) && SizeAll(kids[..i]) <= SizeAll(kids)
    decreases |kids|
  {
    var n := |kids| - 1;
    if i < n {
      SizeAllMember(kids[..n], i);
      assert kids[..n][..i] == kids[..i];
    }
  }

  /** A walk that stops has found what makes the whole too large. */
  ghost predicate WithinLimits(nodes: nat, kids: seq<Html>, depth: nat) {
    nodes + VisitsAll(kids) <= MAX_NODES && FitAll(kids, depth)
  }

  // ---- The writer ----

  class Writer {
    var nodes: nat
    var defs: seq<ListDef>
    var bullet: Option<nat>

    constructor ()
      ensures nodes == 0 && Lists() == NO_LISTS
    {
      nodes, defs, bullet := 0, [], None;
    }

    function Lists(): Numbering
      reads this
    {
      Numbering(defs, bullet)
    }

    /** `_list_numbering` */
    method ListNumbering(ordered: bool, start: nat) returns (id: nat)
      modifies this`defs, this`bullet
      ensures (id, Lists()) == NewList(old(Lists()), ordered, start)
    {
      if !ordered && bullet.Some? { return bullet.value; }
      id := |defs|;
      defs := defs + [ListDef(ordered, start)];
      if !ordered { bullet := Some(id); }
    }

    /** `children` */
    method Kids(cursor: Cursor, kids: seq<Html>, ctx: Context) returns (ok: bool)
      requires cursor.Valid() && nodes <= MAX_NODES
      modifies this, cursor
      ensures ok <==> WithinLimits(old(nodes), kids, ctx.depth)
      ensures ok ==>
        && cursor.Valid() && nodes == old(nodes) + VisitsAll(kids)
        && var w := WalkKids(kids, ctx, old(Lists()));
           cursor.State() == Play(old(cursor.State()), w.events) && Lists() == w.numbering
      decreases SizeAll(kids), 2
    {
      hide Play, WalkNode, Visits, Fits;
      ghost var start, lists := cursor.State(), Lists();
      assert Play(start, []) == start by { PlayNothing(start); }
      for i := 0 to |kids|
        invariant cursor.Valid() && nodes <= MAX_NODES
        invariant nodes == old(nodes) + VisitsAll(kids[..i]) && FitAll(kids[..i], ctx.depth)
        invariant cursor.State() == Play(start, WalkKids(kids[..i], ctx, lists).events)
        invariant Lists() == WalkKids(kids[..i], ctx, lists).numbering
      {
        assert kids[..i + 1][..i] == kids[..i];
        SizeAllMember(kids, i);
        PrefixWithinLimits(kids, i + 1, ctx.depth);
        ghost var before := WalkKids(kids[..i], ctx, lists);
        PlayConcat(start, before.events, WalkNode(kids[i], ctx, before.numbering).events);
        var fine := Node(cursor, kids[i], ctx);
        if !fine { return false; }
      }
      assert kids[..|kids|] == kids;
      return true;
    }

    /** `node`, and the text between elements */
    method Node(cursor: Cursor, n: Html, parent: Context) returns (ok: bool)
      requires cursor.Valid() && nodes <= MAX_NODES
      modifies this, cursor
      ensures ok <==> old(nodes) + Visits(n) <= MAX_NODES && Fits(n, parent.depth)
      ensures ok ==>
        && cursor.Valid() && nodes == old(nodes) + Visits(n)
        && var w := WalkNode(n, parent, old(Lists()));
           cursor.State() == Play(old(cursor.State()), w.events) && Lists() == w.numbering
      decreases Size(n), 1
    {
      hide Play, PlayOne, VisitsAll, FitAll, VisitsCells, FitCells, WalkKids, WalkTable, WalkList, WalkItem, WalkBlock, ValidState;
      hide Rows, Flat, Captions, Elements, TextNodeStep, LineBreakStep, RuleStep;
      ghost var start := cursor.State();
      PlayNothing(start);
      if n.Text? {
        PlayOneEvent(start, TextNode(n.text, parent.format, parent.pre));
        cursor.Text(parent.format, parent.pre, n.text);
        return true;
      }
      if n.Comment? { return true; }
      hide WalkNode;
      nodes := nodes + 1;
      if nodes > MAX_NODES || parent.depth > MAX_DEPTH { return false; }
      ok := Enter(cursor, n, parent);
    }

    /** What `node` does for the element's tag. */
    method Enter(cursor: Cursor, n: Html, parent: Context) returns (ok: bool)
      requires cursor.Valid() && nodes <= MAX_NODES && n.Element? && parent.depth <= MAX_DEPTH
      modifies this, cursor
      ensures ok <==> old(nodes) + Visits(n) - 1 <= MAX_NODES && Fits(n, parent.depth)
      ensures ok ==>
        && cursor.Valid() && nodes == old(nodes) + Visits(n) - 1
        && var w := WalkNode(n, parent, old(Lists()));
           cursor.State() == Play(old(cursor.State()), w.events) && Lists() == w.numbering
      decreases Size(n), 0
    {
      hide Play, PlayOne, VisitsAll, FitAll, VisitsCells, FitCells, WalkKids, WalkTable, WalkList, WalkItem, WalkBlock, ValidState;
      hide Rows, Flat, Captions, Elements, TextNodeStep, LineBreakStep, RuleStep;
      ghost var start := cursor.State();
      PlayNothing(start);
      var ctx := Inside(parent, n);
      match n.tag {
        case Skipped => return true;
        case Image => return true;
        case LineBreakTag =>
          PlayOneEvent(start, LineBreak);
          cursor.LineBreak();
          return true;
        case RuleTag =>
          PlayOneEvent(start, RuleLine);
          cursor.HorizontalRule();
          return true;
        case TableTag => ok := Table(cursor, n, ctx);
        case Unordered => ok := List(cursor, n.kids, ctx, false, 1);
        case Ordered(first) => ok := List(cursor, n.kids, ctx, true, Max(1, first));
        case Item => ok := ListItem(cursor, n.kids, ctx);
        case BlockTag(pre) => ok := Block(cursor, n.kids, if pre then ctx.(pre := true) else ctx);
        case Caption => ok := Block(cursor, n.kids, ctx);
        case _ => ok := Kids(cursor, n.kids, ctx);
      }
    }

    /** `_block` */
    method Block(cursor: Cursor, kids: seq<Html>, ctx: Context) returns (ok: bool)
      requires cursor.Valid() && nodes <= MAX_NODES
      modifies this, cursor
      ensures ok <==> WithinLimits(old(nodes), kids, ctx.depth)
      ensures ok ==>
        && cursor.Valid() && nodes == old(nodes) + VisitsAll(kids)
        && var w := WalkBlock(kids, ctx, old(Lists()));
           cursor.State() == Play(old(cursor.State()), w.events) && Lists() == w.numbering
      decreases SizeAll(kids), 3
    {
      hide Play, PlayOne, WalkKids, ValidState, WithinLimits;
      ghost var start, lists := cursor.State(), Lists();
      PlayAround(start, Boundary, WalkKids(kids, ctx, lists).events, Boundary);
      PlayBoundary(start);
      cursor.Close();
      ok := Kids(cursor, kids, ctx);
      if ok {
        PlayBoundary(cursor.State());
        cursor.Close();
      }
    }

    /** `_list` */
    method List(cursor: Cursor, kids: seq<Html>, ctx: Context, ordered: bool, start: nat) returns (ok: bool)
      requires cursor.Valid() && nodes <= MAX_NODES
      modifies this, cursor
      ensures ok <==> WithinLimits(old(nodes), Elements(kids), ctx.depth)
      ensures ok ==>
        && cursor.Valid() && nodes == old(nodes) + VisitsAll(Elements(kids))
        && var w := WalkList(kids, ctx, old(Lists()), ordered, start);
           cursor.State() == Play(old(cursor.State()), w.events) && Lists() == w.numbering
      decreases SizeAll(kids), 3
    {
      hide Play, PlayOne, WalkKids, ValidState, WithinLimits, Elements;
      ghost var begin := cursor.State();
      cursor.Close();
      var id := ListNumbering(ordered, start);
      var inside := ctx.(level := Deeper(ctx.level), list := Some(id));
      PlayAround(begin, ListBegin(id, ordered, start), WalkKids(Elements(kids), inside, Lists()).events, ListEnd);
      PlayListBegin(begin, id, ordered, start);
      ok := Kids(cursor, Elements(kids), inside);
      if ok {
        PlayListEnd(cursor.State());
        cursor.Close();
      }
    }

    /** `_list_item` */
    method ListItem(cursor: Cursor, kids: seq<Html>, outer: Context) returns (ok: bool)
      requires cursor.Valid() && nodes <= MAX_NODES
      modifies this, cursor
      ensures ok <==> WithinLimits(old(nodes), kids, outer.depth)
      ensures ok ==>
        && cursor.Valid() && nodes == old(nodes) + VisitsAll(kids)
        && var w := WalkItem(kids, outer, old(Lists()));
           cursor.State() == Play(old(cursor.State()), w.events) && Lists() == w.numbering
      decreases SizeAll(kids), 3
    {
      hide Play, PlayOne, WalkKids, ValidState, WithinLimits;
      ghost var begin := cursor.State();
      var ctx, orphan := outer, outer.list.None?;
      if orphan {
        var id := ListNumbering(false, 1);
        ctx := outer.(level := 0, list := Some(id));
      }
      var mark := Mark(ctx);
      ghost var inner := WalkKids(kids, ctx, Lists());
      ghost var item := [ItemBegin(mark)] + inner.events + [ItemEnd];
      PlayAround(begin, ItemBegin(mark), inner.events, ItemEnd);
      PlayItemBegin(begin, mark);
      cursor.Close();
      cursor.Number(Some(mark));
      ok := Kids(cursor, kids, ctx);
      if ok {
        PlayItemEnd(cursor.State());
        cursor.Number(None);
        cursor.Close();
        if orphan { PlayOrphan(begin, ctx.list.value, mark, inner.events); }
      }
    }

    /** `_table` */
    method Table(cursor: Cursor, n: Html, ctx: Context) returns (ok: bool)
      requires cursor.Valid() && nodes <= MAX_NODES && Is(n, TableTag)
      modifies this, cursor
      ensures ok <==> old(nodes) + Visits(n) - 1 <= MAX_NODES && TableWithin(n.kids, ctx.depth)
      ensures ok ==>
        && cursor.Valid() && nodes == old(nodes) + Visits(n) - 1
        && var w := WalkTable(n.kids, ctx, old(Lists()));
           cursor.State() == Play(old(cursor.State()), w.events) && Lists() == w.numbering
      decreases SizeAll(n.kids), 3
    {
      hide Play, PlayOne, WalkKids, WalkCells, ValidState, Rows, Flat, Captions, VisitsAll, FitAll, VisitsCells, FitCells;
      var kids := n.kids;
      var rows := Rows(kids);
      if rows == [] {
        ok := Kids(cursor, kids, ctx);
        return;
      }
      ghost var begin, lists := cursor.State(), Lists();
      PlayBoundary(begin);
      cursor.Close();
      var placements, _ := TableGrid.Allocate(Spans(rows));
      var width := TableGrid.Width(placements);
      if width == 0 { return true; }
      if !TableFits(|rows|, width) { return false; }
      RowsSmaller(kids);
      OnePlaceEach(kids);
      ghost var captions := WalkKids(Captions(kids), ctx, lists);
      ok := Kids(cursor, Captions(kids), ctx);
      if !ok { return; }
      ghost var played := WalkCells(Flat(rows), placements, ctx, captions.numbering);
      PlayTable(begin, captions.events, |rows|, width, played.0);
      CaptionsClose(begin, kids, ctx, lists);
      var cells;
      ok, cells := TableCells(Flat(rows), placements, ctx);
      if !ok { return; }
      cursor.Add(Document.Table(|rows|, width, cells));
    }

    /** `_cell`: a cursor of its own, at the cell's first paragraph. */
    method OneCell(cell: Html, ctx: Context) returns (ok: bool, blocks: seq<Block>)
      requires nodes <= MAX_NODES && IsCell(cell)
      modifies this
      ensures ok <==> WithinLimits(old(nodes), cell.kids, ctx.depth)
      ensures ok ==>
        && nodes == old(nodes) + VisitsAll(cell.kids)
        && var w := WalkKids(cell.kids, InsideCell(ctx, cell), old(Lists()));
           blocks == Padded(Play(CELL, w.events).blocks) && Lists() == w.numbering
      decreases SizeAll(cell.kids), 3
    {
      hide Play, WalkKids, ValidState, WithinLimits;
      var cursor := new Cursor.InCell();
      ok := Kids(cursor, cell.kids, InsideCell(ctx, cell));
      blocks := Padded(cursor.blocks);
    }

    /** The cells of a table, in the order of their placements. */
    method TableCells(cells: seq<Html>, places: seq<Placement>, ctx: Context) returns (ok: bool, out: seq<Cell>)
      requires nodes <= MAX_NODES
      requires |cells| <= |places| && forall i | 0 <= i < |cells| :: IsCell(cells[i])
      modifies this
      ensures ok <==> old(nodes) + VisitsCells(cells) <= MAX_NODES && FitCells(cells, ctx.depth)
      ensures ok ==>
        && nodes == old(nodes) + VisitsCells(cells)
        && var w := WalkCells(cells, places, ctx, old(Lists())); out == PlayCells(w.0) && Lists() == w.1
      decreases SizeAll(cells), 1
    {
      hide Play, WalkKids, VisitsAll, FitAll, ValidState, PlayCells;
      ghost var lists := Lists();
      out := [];
      PlayNoCells();
      for i := 0 to |cells|
        invariant nodes <= MAX_NODES
        invariant nodes == old(nodes) + VisitsCells(cells[..i]) && FitCells(cells[..i], ctx.depth)
        invariant out == PlayCells(WalkCells(cells[..i], places, ctx, lists).0)
        invariant Lists() == WalkCells(cells[..i], places, ctx, lists).1
      {
        var cell := cells[i];
        CellsStep(cells, i, places, ctx, lists);
        CellsPrefixWithinLimits(cells, i + 1, ctx.depth);
        ghost var before := WalkCells(cells[..i], places, ctx, lists);
        hide WalkCells, VisitsCells, FitCells;
        PlayCellsSnoc(before.0, places[i], WalkKids(cell.kids, InsideCell(ctx, cell), before.1).events);
        var fine, blocks := OneCell(cell, ctx);
        if !fine { return false, out; }
        out := out + [Cell(places[i], blocks)];
      }
      assert cells[..|cells|] == cells;
      return true, out;
    }
  }

  lemma PlayNoCells()
    ensures PlayCells([]) == []
  {
  }

  /** One more cell. */
  lemma CellsStep(cells: seq<Html>, i: nat, places: seq<Placement>, ctx: Context, num: Numbering)
    requires i < |cells| <= |places| && forall i | 0 <= i < |cells| :: IsCell(cells[i])
    ensures IsCell(cells[i])
    ensures var cell, more := cells[i], cells[..i + 1];
            var before := WalkCells(cells[..i], places, ctx, num);
            var inner := WalkKids(cell.kids, InsideCell(ctx, cell), before.1);
            && SizeAll(cell.kids) < SizeAll(cells)
            && WalkCells(more, places, ctx, num) == (before.0 + [CellEvents(places[i], inner.events)], inner.numbering)
            && VisitsCells(more) == VisitsCells(cells[..i]) + VisitsAll(cell.kids)
            && FitCells(more, ctx.depth) == (FitCells(cells[..i], ctx.depth) && FitAll(cell.kids, ctx.depth))
  {
    var cell, more := cells[i], cells[..i + 1];
    assert more[..i] == cells[..i] && more[i] == cell;
    SizeAllMember(cells, i);
    assert IsCell(cell) && Size(cell) == 1 + SizeAll(cell.kids);
  }

  /** `Fits` for a table, one step in. */
  predicate TableWithin(kids: seq<Html>, depth: nat) {
    if Rows(kids) == [] then FitAll(kids, depth)
    else
      RowsSmaller(kids);
      OnePlaceEach(kids);
      var width := TableGrid.Width(TablePlaces(kids));
      width == 0 || (TableFits(|Rows(kids)|, width) && FitAll(Captions(kids), depth) && FitCells(Flat(Rows(kids)), depth))
  }

  // ---- Playing events one at a time ----

  lemma PlayNothing(c: CursorState)
    requires ValidState(c)
    ensures Play(c, []) == c
  {
  }

  lemma PlayOneEvent(c: CursorState, e: Event)
    requires ValidState(c)
    ensures Play(c, [e]) == PlayOne(c, e)
    ensures e.TextNode? ==> Play(c, [e]) == TextNodeStep(c, e.format, e.preformatted, e.raw)
    ensures e.LineBreak? ==> Play(c, [e]) == LineBreakStep(c)
    ensures e.RuleLine? ==> Play(c, [e]) == RuleStep(c)
  {
    PlaySnoc(c, [], e);
    assert [] + [e] == [e];
  }

  lemma PlayAround(c: CursorState, first: Event, es: seq<Event>, last: Event)
    requires ValidState(c)
    ensures Play(c, [first] + es + [last]) == PlayOne(Play(PlayOne(c, first), es), last)
  {
    hide PlayOne;
    PlaySnoc(c, [first] + es, last);
    PlayConcat(c, [first], es);
    PlayOneEvent(c, first);
  }

  lemma PlayBoundary(c: CursorState)
    requires ValidState(c)
    ensures PlayOne(c, Boundary) == CloseStep(c) && Play(c, [Boundary]) == CloseStep(c)
  {
    PlayOneEvent(c, Boundary);
  }

  lemma PlayListBegin(c: CursorState, id: nat, ordered: bool, start: nat)
    requires ValidState(c)
    ensures PlayOne(c, ListBegin(id, ordered, start)) == CloseStep(c)
  {
  }

  lemma PlayListEnd(c: CursorState)
    requires ValidState(c)
    ensures PlayOne(c, ListEnd) == CloseStep(c)
  {
  }

  lemma PlayItemBegin(c: CursorState, mark: ItemMark)
    requires ValidState(c)
    ensures PlayOne(c, ItemBegin(mark)) == CloseStep(c).(numbering := Some(mark))
  {
  }

  lemma PlayItemEnd(c: CursorState)
    requires ValidState(c)
    ensures PlayOne(c, ItemEnd) == CloseStep(c.(numbering := None))
  {
  }

  /** The list around an item outside any list only closes what is closed already. */
  lemma PlayOrphan(c: CursorState, id: nat, mark: ItemMark, es: seq<Event>)
    requires ValidState(c)
    ensures var item := [ItemBegin(mark)] + es + [ItemEnd];
            Play(c, [ListBegin(id, false, 1)] + item + [ListEnd]) == Play(c, item)
  {
    hide Play;
    var item := [ItemBegin(mark)] + es + [ItemEnd];
    var closed := CloseStep(c);
    PlayAround(c, ListBegin(id, false, 1), item, ListEnd);
    PlayAround(closed, ItemBegin(mark), es, ItemEnd);
    PlayAround(c, ItemBegin(mark), es, ItemEnd);
    assert PlayOne(closed, ItemBegin(mark)) == PlayOne(c, ItemBegin(mark));
    var inside := Play(PlayOne(c, ItemBegin(mark)), es);
    assert PlayOne(PlayOne(inside, ItemEnd), ListEnd) == PlayOne(inside, ItemEnd);
  }

  lemma PlayTable(c: CursorState, captions: seq<Event>, height: nat, width: nat, cells: seq<CellEvents>)
    requires ValidState(c)
    ensures Play(c, [Boundary] + captions + [TableBlock(height, width, cells)])
            == AddStep(CloseStep(Play(CloseStep(c), captions)), Document.Table(height, width, PlayCells(cells)))
  {
    PlayAround(c, Boundary, captions, TableBlock(height, width, cells));
  }

  lemma PlayCellsSnoc(cells: seq<CellEvents>, place: Placement, es: seq<Event>)
    ensures PlayCells(cells + [CellEvents(place, es)]) == PlayCells(cells) + [Cell(place, Padded(Play(CELL, es).blocks))]
  {
    assert (cells + [CellEvents(place, es)])[..|cells|] == cells;
  }

  /** Captions are blocks, so nothing is open after them. */
  lemma {:induction false} CaptionsStayClosed(c: CursorState, captions: seq<Html>, ctx: Context, num: Numbering)
    requires ValidState(c) && CloseStep(c) == c
    requires forall i | 0 <= i < |captions| :: Is(captions[i], Caption)
    ensures var o := Play(c, WalkKids(captions, ctx, num).events); CloseStep(o) == o
  {
    if captions != [] {
      var k := |captions| - 1;
      CaptionsStayClosed(c, captions[..k], ctx, num);
      var before := WalkKids(captions[..k], ctx, num);
      var inner := WalkKids(captions[k].kids, Inside(ctx, captions[k]), before.numbering);
      assert Is(captions[k], Caption);
      assert WalkNode(captions[k], ctx, before.numbering).events == [Boundary] + inner.events + [Boundary];
      var o := Play(c, before.events);
      PlayConcat(c, before.events, [Boundary] + inner.events + [Boundary]);
      PlayAround(o, Boundary, inner.events, Boundary);
      PlayBoundary(Play(PlayOne(o, Boundary), inner.events));
    }
  }

  lemma {:induction false} CaptionsAre(kids: seq<Html>)
    ensures forall i | 0 <= i < |Captions(kids)| :: Is(Captions(kids)[i], Caption)
  {
    if kids != [] { CaptionsAre(kids[..|kids| - 1]); }
  }

  lemma CaptionsClose(c: CursorState, kids: seq<Html>, ctx: Context, num: Numbering)
    requires ValidState(c)
    ensures var o := Play(CloseStep(c), WalkKids(Captions(kids), ctx, num).events); CloseStep(o) == o
  {
    CaptionsAre(kids);
    CaptionsStayClosed(CloseStep(c), Captions(kids), ctx, num);
  }

  // ---- The conversion ----

  /** `html_to_docx`: the document of a body's children, or None when it is too large or too
      deeply nested. The document's text is what its characters, breaks and boundaries say,
      and its content is the HTML's, exactly when nothing stands where the walk does not look. */
  method HtmlToDocx(kids: seq<Html>) returns (document: Option<seq<Block>>)
    ensures document.Some? <==> WithinLimits(0, kids, 0)
    ensures document.Some? ==> Texts(document.value) == PageBlocks(WalkKids(kids, TOP, NO_LISTS).events)
    ensures document.Some? ==> multiset(BlocksInk(Texts(document.value))) == multiset(KeptAll(kids))
    ensures document.Some? ==>
              && BlocksInk(Texts(document.value)) == Shown(kids)
              && (BlocksInk(Texts(document.value)) == KidsInk(kids) <==> LostAll(kids) == "" && AllInOrder(kids, false))
  {
    hide Play, WalkKids, VisitsAll, FitAll, AllInOrder, KidsInk, LostAll, KeptAll, Shown, BlocksInk, PageBlocks;
    var writer := new Writer();
    var cursor := new Cursor.Page();
    var ok := writer.Kids(cursor, kids, TOP);
    if !ok { return None; }
    PageText(WalkKids(kids, TOP, NO_LISTS).events);
    EveryCharacterOnce(kids);
    ContentIsShown(kids);
    ContentIsKeptExactlyWhen(kids);
    return Some(cursor.blocks);
  }
}
