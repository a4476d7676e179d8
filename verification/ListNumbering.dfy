/** The numbering of lists: every item belongs to the nearest list around it, at that list's
    depth, and every numbered list has a definition of its own.

    The walk passes the list down in a context and caps the level at each step. Here the
    events are read flat, with a stack of the lists that are open, as one would check the
    finished document. */
module ListNumbering {
  import opened Options
  import opened Document
  import opened DocumentText
  import opened Whitespace
  import opened HtmlWalk
  import opened ContentKept
  import TableGrid

  /** The open lists after an event, or None when an item does not carry the innermost one's
      numbering at its depth, at most the ninth. */
  function CheckOne(stack: seq<nat>, e: Event): Option<seq<nat>>
    decreases e, 1
  {
    match e
    case ListBegin(id, _, _) => Some(stack + [id])
    case ListEnd => if stack == [] then None else Some(stack[..|stack| - 1])
    case ItemBegin(mark) =>
      if stack != [] && mark.numId == stack[|stack| - 1] && mark.level == Min(|stack| - 1, 8) then Some(stack) else None
    case TableBlock(_, _, cells) => if CheckCells(cells) then Some(stack) else None
    case _ => Some(stack)
  }

  function Check(stack: seq<nat>, es: seq<Event>): Option<seq<nat>>
    decreases es, 0
  {
    if es == [] then Some(stack)
    else
      var before := Check(stack, es[..|es| - 1]);
      if before.None? then None else CheckOne(before.value, es[|es| - 1])
  }

  /** Each cell's lists are its own. */
  predicate CheckCells(cells: seq<CellEvents>)
    decreases cells, 0
  {
    cells != [] ==>
      CheckCells(cells[..|cells| - 1]) && Check([], cells[|cells| - 1].events) == Some([])
  }

  ghost predicate Agrees(ctx: Context, stack: seq<nat>) {
    && ctx.list == (if stack == [] then None else Some(stack[|stack| - 1]))
    && ctx.level == (if stack == [] then -1 else Min(|stack| - 1, 8))
  }

  lemma {:induction false} CheckConcat(stack: seq<nat>, a: seq<Event>, b: seq<Event>)
    ensures Check(stack, a + b) == if Check(stack, a).None? then None else Check(Check(stack, a).value, b)
    decreases |b|
  {
    hide CheckOne;
    if b == [] {
      assert a + b == a;
    } else {
      CheckConcat(stack, a, b[..|b| - 1]);
      assert (a + b)[..|a + b| - 1] == a + b[..|b| - 1];
    }
  }

  lemma CheckNothing(stack: seq<nat>)
    ensures Check(stack, []) == Some(stack)
  {
  }

  lemma CheckSingle(stack: seq<nat>, e: Event)
    ensures Check(stack, [e]) == CheckOne(stack, e)
  {
    assert [e][..0] == [];
  }

  lemma CheckWrapped(stack: seq<nat>, first: Event, inside: seq<nat>, es: seq<Event>, last: Event)
    requires CheckOne(stack, first) == Some(inside) && Check(inside, es) == Some(inside)
    requires CheckOne(inside, last) == Some(stack)
    ensures Check(stack, [first] + es + [last]) == Some(stack)
  {
    CheckConcat(stack, [first] + es, [last]);
    CheckConcat(stack, [first], es);
    CheckSingle(stack, first);
    CheckSingle(inside, last);
  }

  lemma {:induction false} NodeChecks(n: Html, parent: Context, num: Numbering, stack: seq<nat>)
    requires Agrees(parent, stack)
    ensures Check(stack, WalkNode(n, parent, num).events) == Some(stack)
    decreases Size(n), 0
  {
    hide WalkKids, WalkBlock, WalkList, WalkItem, WalkTable, WalkCells, Check;
    match n {
      case Text(text) => CheckSingle(stack, TextNode(text, parent.format, parent.pre));
      case Comment => CheckNothing(stack);
      case Element(tag, _, kids) =>
        var ctx := Inside(parent, n);
        match tag {
          case Skipped => CheckNothing(stack);
          case LineBreakTag => CheckSingle(stack, LineBreak);
          case Image => CheckNothing(stack);
          case RuleTag => CheckSingle(stack, RuleLine);
          case TableTag => TableChecks(kids, ctx, num, stack);
          case Unordered => ListChecks(kids, ctx, num, false, 1, stack);
          case Ordered(start) => ListChecks(kids, ctx, num, true, Max(1, start), stack);
          case Item => ItemChecks(kids, ctx, num, stack);
          case BlockTag(pre) => BlockChecks(kids, if pre then ctx.(pre := true) else ctx, num, stack);
          case Caption => BlockChecks(kids, ctx, num, stack);
          case _ => KidsCheck(kids, ctx, num, stack);
        }
    }
  }

  /** Items carry the numbering of their nearest list, through any nesting of lists, items,
      blocks and tables, and every list that is opened is closed. */
  lemma {:induction false} KidsCheck(kids: seq<Html>, ctx: Context, num: Numbering, stack: seq<nat>)
    requires Agrees(ctx, stack)
    ensures Check(stack, WalkKids(kids, ctx, num).events) == Some(stack)
    decreases SizeAll(kids), 1
  {
    hide WalkNode;
    if kids != [] {
      var k := |kids| - 1;
      KidsCheck(kids[..k], ctx, num, stack);
      var before := WalkKids(kids[..k], ctx, num);
      NodeChecks(kids[k], ctx, before.numbering, stack);
      CheckConcat(stack, before.events, WalkNode(kids[k], ctx, before.numbering).events);
    }
  }

  lemma {:induction false} BlockChecks(kids: seq<Html>, ctx: Context, num: Numbering, stack: seq<nat>)
    requires Agrees(ctx, stack)
    ensures Check(stack, WalkBlock(kids, ctx, num).events) == Some(stack)
    decreases SizeAll(kids), 2
  {
    KidsCheck(kids, ctx, num, stack);
    CheckWrapped(stack, Boundary, stack, WalkKids(kids, ctx, num).events, Boundary);
  }

  lemma {:induction false} ListChecks(kids: seq<Html>, ctx: Context, num: Numbering, ordered: bool, start: nat, stack: seq<nat>)
    requires Agrees(ctx, stack)
    ensures Check(stack, WalkList(kids, ctx, num, ordered, start).events) == Some(stack)
    decreases SizeAll(kids), 2
  {
    var (id, numbered) := NewList(num, ordered, start);
    var inside := ctx.(level := Deeper(ctx.level), list := Some(id));
    KidsCheck(Elements(kids), inside, numbered, stack + [id]);
    CheckWrapped(stack, ListBegin(id, ordered, start), stack + [id], WalkKids(Elements(kids), inside, numbered).events, ListEnd);
  }

  lemma {:induction false} ItemChecks(kids: seq<Html>, ctx: Context, num: Numbering, stack: seq<nat>)
    requires Agrees(ctx, stack)
    ensures Check(stack, WalkItem(kids, ctx, num).events) == Some(stack)
    decreases SizeAll(kids), 2
  {
    if ctx.list.Some? {
      KidsCheck(kids, ctx, num, stack);
      CheckWrapped(stack, ItemBegin(Mark(ctx)), stack, WalkKids(kids, ctx, num).events, ItemEnd);
    } else {
      var (id, numbered) := NewList(num, false, 1);
      var own := ctx.(level := 0, list := Some(id));
      KidsCheck(kids, own, numbered, [id]);
      var inner := WalkKids(kids, own, numbered).events;
      CheckWrapped([id], ItemBegin(Mark(own)), [id], inner, ItemEnd);
      assert [] + [id] == [id] && [id][..0] == [];
      CheckWrapped([], ListBegin(id, false, 1), [id], [ItemBegin(Mark(own))] + inner + [ItemEnd], ListEnd);
    }
  }

  lemma {:induction false} TableChecks(kids: seq<Html>, ctx: Context, num: Numbering, stack: seq<nat>)
    requires Agrees(ctx, stack)
    ensures Check(stack, WalkTable(kids, ctx, num).events) == Some(stack)
    decreases SizeAll(kids), 2
  {
    hide Rows, Flat, Captions, WalkKids, WalkCells, Check;
    var places := TablePlaces(kids);
    if Rows(kids) == [] {
      KidsCheck(kids, ctx, num, stack);
    } else if TableGrid.Width(places) == 0 {
      CheckSingle(stack, Boundary);
    } else {
      RowsSmaller(kids);
      OnePlaceEach(kids);
      var captions := WalkKids(Captions(kids), ctx, num);
      KidsCheck(Captions(kids), ctx, num, stack);
      var (cells, numbered) := WalkCells(Flat(Rows(kids)), places, ctx, captions.numbering);
      CellsCheck(Flat(Rows(kids)), places, ctx, captions.numbering);
      CheckWrapped(stack, Boundary, stack, captions.events, TableBlock(|Rows(kids)|, TableGrid.Width(places), cells));
    }
  }

  lemma {:induction false} CellsCheck(cells: seq<Html>, places: seq<Placement>, ctx: Context, num: Numbering)
    requires |cells| <= |places| && forall i | 0 <= i < |cells| :: IsCell(cells[i])
    ensures CheckCells(WalkCells(cells, places, ctx, num).0)
    decreases SizeAll(cells), 1
  {
    if cells != [] {
      var k := |cells| - 1;
      assert IsCell(cells[k]);
      assert Size(cells[k]) == 1 + SizeAll(cells[k].kids);
      CellsCheck(cells[..k], places, ctx, num);
      var (before, numbered) := WalkCells(cells[..k], places, ctx, num);
      var inside := InsideCell(ctx, cells[k]);
      KidsCheck(cells[k].kids, inside, numbered, []);
      CheckCellsSnoc(before, places[k], WalkKids(cells[k].kids, inside, numbered).events);
    }
  }

  lemma CheckCellsSnoc(cells: seq<CellEvents>, place: Placement, es: seq<Event>)
    requires CheckCells(cells) && Check([], es) == Some([])
    ensures CheckCells(cells + [CellEvents(place, es)])
  {
    assert (cells + [CellEvents(place, es)])[..|cells|] == cells;
  }

  /** What an item writes first carries its mark: text and breaks alone, that have content. */
  lemma ItemParagraph(g: Gathered, mark: ItemMark, raw: string, format: Format)
    requires Opens(Chars(raw))
    ensures var f := Finish(CollectOne(CollectOne(g, ItemBegin(mark)), TextNode(raw, format, false)));
            && f.done == Finish(g).done + [TextParagraph(ParagraphText(Chars(raw)), Some(mark))]
            && f.mark == None
  {
    hide Opens, ParagraphText, Chars;
    NoTokens();
    assert [] + Chars(raw) == Chars(raw);
  }

  /** The marks of the paragraphs, in order. */
  function MarksOf(bs: seq<TextBlock>): seq<Option<ItemMark>> {
    if bs == [] then []
    else MarksOf(bs[..|bs| - 1]) + if bs[|bs| - 1].TextParagraph? then [bs[|bs| - 1].mark] else []
  }

  /** Reading events for where paragraphs begin: the mark of each that has, whether one is under
      way, and the mark of the item begun since. */
  datatype Beginnings = Beginnings(marks: seq<Option<ItemMark>>, open: bool, next: Option<ItemMark>)

  const NONE_BEGUN := Beginnings([], false, None)

  /** The first paragraph after an item begins takes its mark; the next ones have none. */
  function BeginParagraph(b: Beginnings): Beginnings {
    if b.open then b else Beginnings(b.marks + [b.next], true, None)
  }

  function ReadOne(b: Beginnings, e: Event): Beginnings {
    match e
    case TextNode(raw, _, preformatted) => if Opens(TextTokens(raw, preformatted)) then BeginParagraph(b) else b
    case LineBreak => BeginParagraph(b)
    case ItemBegin(mark) => b.(open := false, next := Some(mark))
    case ItemEnd => b.(open := false, next := None)
    case _ => b.(open := false)
  }

  function ReadAll(es: seq<Event>): Beginnings {
    if es == [] then NONE_BEGUN else ReadOne(ReadAll(es[..|es| - 1]), es[|es| - 1])
  }

  ghost predicate Reads(b: Beginnings, g: Gathered) {
    && (b.open <==> Opens(g.line))
    && b.marks == MarksOf(g.done) + (if b.open then [g.mark] else [])
    && b.next == (if b.open then None else g.mark)
  }

  lemma MarksSnoc(bs: seq<TextBlock>, b: TextBlock)
    ensures MarksOf(bs + [b]) == MarksOf(bs) + if b.TextParagraph? then [b.mark] else []
  {
    assert (bs + [b])[..|bs|] == bs;
  }

  lemma FinishReads(b: Beginnings, g: Gathered)
    requires Reads(b, g)
    ensures Reads(b.(open := false), Finish(g)) && MarksOf(Finish(g).done) == b.marks
  {
    hide MarksOf;
    if Opens(g.line) { MarksSnoc(g.done, TextParagraph(ParagraphText(g.line), g.mark)); }
  }

  lemma OneReads(b: Beginnings, g: Gathered, e: Event)
    requires Reads(b, g)
    ensures Reads(ReadOne(b, e), CollectOne(g, e))
  {
    hide MarksOf, TextTokens, Finish, Opens, CollectCells;
    FinishReads(b, g);
    NoTokens();
    match e {
      case TextNode(raw, _, preformatted) => OpensConcat(g.line, TextTokens(raw, preformatted));
      case LineBreak =>
        OpensConcat(g.line, [Br]);
        BreakOpens();
      case RuleLine => MarksSnoc(Finish(g).done, TextRule);
      case TableBlock(height, width, cells) => MarksSnoc(Finish(g).done, TextTable(height, width, CollectCells(cells)));
      case _ =>
    }
  }

  lemma BreakOpens()
    ensures Opens([Br])
  {
    assert OpensOn([Br][0]);
  }

  lemma NoTokens()
    ensures !Opens([])
  {
  }

  lemma {:induction false} AllRead(es: seq<Event>)
    ensures Reads(ReadAll(es), Collect(NOTHING, es))
  {
    hide ReadOne, CollectOne, MarksOf;
    if es == [] {
      assert MarksOf([]) == [] by { NoMarks(); }
    } else {
      AllRead(es[..|es| - 1]);
      OneReads(ReadAll(es[..|es| - 1]), Collect(NOTHING, es[..|es| - 1]), es[|es| - 1]);
    }
  }

  lemma NoMarks()
    ensures MarksOf([]) == []
  {
  }

  /** Outside cells: the first paragraph to begin after an item does, before it ends or another
      begins, carries the item's mark, and no other paragraph carries any. */
  lemma ItemsAreMarked(kids: seq<Html>)
    ensures MarksOf(DocumentOf(kids)) == ReadAll(WalkKids(kids, TOP, NO_LISTS).events).marks
  {
    var es := WalkKids(kids, TOP, NO_LISTS).events;
    PageText(es);
    AllRead(es);
    FinishReads(ReadAll(es), Collect(NOTHING, es));
  }

  // ---- Marks in cells ----

  function Carried(marks: seq<Option<ItemMark>>): multiset<ItemMark> {
    if marks == [] then multiset{}
    else Carried(marks[..|marks| - 1]) + if marks[|marks| - 1].Some? then multiset{marks[|marks| - 1].value} else multiset{}
  }

  /** The marks of all paragraphs, those in cells too. */
  function MarksIn(bs: seq<TextBlock>): multiset<ItemMark>
    decreases bs, 0
  {
    if bs == [] then multiset{} else MarksIn(bs[..|bs| - 1]) + MarksInBlock(bs[|bs| - 1])
  }

  function MarksInBlock(b: TextBlock): multiset<ItemMark>
    decreases b, 1
  {
    match b
    case TextParagraph(_, mark) => if mark.Some? then multiset{mark.value} else multiset{}
    case TextRule => multiset{}
    case TextTable(_, _, cells) => MarksInCells(cells)
  }

  function MarksInCells(cells: seq<TextCell>): multiset<ItemMark>
    decreases cells, 0
  {
    if cells == [] then multiset{} else MarksInCells(cells[..|cells| - 1]) + MarksIn(cells[|cells| - 1].blocks)
  }

  /** The marks paragraphs take, by the events of the page and of each cell. */
  function TakenIn(es: seq<Event>): multiset<ItemMark>
    decreases es, 2
  {
    Carried(ReadAll(es).marks) + TakenInTables(es)
  }

  function TakenInTables(es: seq<Event>): multiset<ItemMark>
    decreases es, 1
  {
    if es == [] then multiset{}
    else
      var last := es[|es| - 1];
      TakenInTables(es[..|es| - 1]) + if last.TableBlock? then TakenInCells(last.cells) else multiset{}
  }

  function TakenInCells(cells: seq<CellEvents>): multiset<ItemMark>
    decreases cells, 0
  {
    if cells == [] then multiset{} else TakenInCells(cells[..|cells| - 1]) + TakenIn(cells[|cells| - 1].events)
  }

  function InTables(bs: seq<TextBlock>): multiset<ItemMark> {
    if bs == [] then multiset{}
    else InTables(bs[..|bs| - 1]) + if bs[|bs| - 1].TextTable? then MarksInBlock(bs[|bs| - 1]) else multiset{}
  }

  lemma {:induction false} MarksInConcat(a: seq<TextBlock>, b: seq<TextBlock>)
    ensures MarksIn(a + b) == MarksIn(a) + MarksIn(b)
  {
    hide MarksInBlock;
    if b == [] {
      assert a + b == a;
    } else {
      MarksInConcat(a, b[..|b| - 1]);
      assert (a + b)[..|a + b| - 1] == a + b[..|b| - 1];
    }
  }

  lemma MarksInOne(b: TextBlock)
    ensures MarksIn([b]) == MarksInBlock(b)
    ensures b == TextParagraph("", None) ==> MarksIn([b]) == multiset{}
  {
    assert [b][..0] == [];
  }

  lemma CarriedSnoc(marks: seq<Option<ItemMark>>, mark: Option<ItemMark>)
    ensures Carried(marks + [mark]) == Carried(marks) + if mark.Some? then multiset{mark.value} else multiset{}
  {
    assert (marks + [mark])[..|marks|] == marks;
  }

  lemma InTablesSnoc(bs: seq<TextBlock>, b: TextBlock)
    ensures InTables(bs + [b]) == InTables(bs) + if b.TextTable? then MarksInBlock(b) else multiset{}
  {
    hide MarksInBlock;
    assert (bs + [b])[..|bs|] == bs;
  }

  lemma OneBlock(b: TextBlock)
    ensures !b.TextTable? ==> MarksInBlock(b) == if b.TextParagraph? && b.mark.Some? then multiset{b.mark.value} else multiset{}
  {
  }

  /** A paragraph's own, and the tables'. */
  lemma {:induction false} MarksSplit(bs: seq<TextBlock>)
    ensures MarksIn(bs) == Carried(MarksOf(bs)) + InTables(bs)
  {
    hide MarksIn, MarksInBlock, MarksOf, InTables, Carried;
    if bs == [] {
      NothingIn();
    } else {
      var init, last := bs[..|bs| - 1], bs[|bs| - 1];
      MarksSplit(init);
      assert bs == init + [last];
      MarksInConcat(init, [last]);
      MarksInOne(last);
      MarksSnoc(init, last);
      InTablesSnoc(init, last);
      OneBlock(last);
      assert MarksOf(init) + [] == MarksOf(init);
      if last.TextParagraph? { CarriedSnoc(MarksOf(init), last.mark); }
    }
  }

  lemma NothingIn()
    ensures MarksIn([]) == multiset{} == InTables([]) && Carried(MarksOf([])) == multiset{}
  {
  }

  lemma FinishTables(g: Gathered)
    ensures InTables(Finish(g).done) == InTables(g.done)
  {
    hide InTables;
    if Opens(g.line) { InTablesSnoc(g.done, TextParagraph(ParagraphText(g.line), g.mark)); }
  }

  lemma OneTaken(g: Gathered, e: Event)
    requires e.TableBlock? ==> MarksInCells(CollectCells(e.cells)) == TakenInCells(e.cells)
    ensures InTables(CollectOne(g, e).done) == InTables(g.done) + if e.TableBlock? then TakenInCells(e.cells) else multiset{}
  {
    hide InTables, MarksInBlock, MarksInCells, TakenInCells, CollectCells, Finish, TextTokens;
    FinishTables(g);
    match e {
      case RuleLine => InTablesSnoc(Finish(g).done, TextRule);
      case TableBlock(height, width, cells) =>
        var table := TextTable(height, width, CollectCells(cells));
        InTablesSnoc(Finish(g).done, table);
        TableMarks(table);
      case _ =>
    }
  }

  lemma {:induction false} TablesTaken(es: seq<Event>)
    ensures InTables(Collect(NOTHING, es).done) == TakenInTables(es)
    decreases es, 1
  {
    hide CollectOne, InTables, TakenInCells, MarksInCells, CollectCells;
    if es == [] {
      NothingIn();
    } else {
      var init, last := es[..|es| - 1], es[|es| - 1];
      TablesTaken(init);
      if last.TableBlock? { CellsTaken(last.cells); }
      OneTaken(Collect(NOTHING, init), last);
    }
  }

  lemma TableMarks(b: TextBlock)
    requires b.TextTable?
    ensures MarksInBlock(b) == MarksInCells(b.cells)
  {
  }

  lemma {:induction false} PaddedMarks(bs: seq<TextBlock>)
    ensures MarksIn(PaddedText(bs)) == MarksIn(bs)
  {
    hide MarksIn, MarksInBlock;
    if bs != [] {
      var init, last := bs[..|bs| - 1], bs[|bs| - 1];
      var empty := TextParagraph("", None);
      PaddedMarks(init);
      MarksInOne(empty);
      MarksInConcat(init, [last]);
      MarksInConcat(PaddedText(init), [last]);
      MarksInConcat(PaddedText(init) + [last], [empty]);
      assert bs == init + [last] && PaddedText(init) + [last, empty] == PaddedText(init) + [last] + [empty];
    }
  }

  lemma OrderedMarks(bs: seq<TextBlock>)
    ensures MarksIn(InCellOrder(bs)) == MarksIn(bs)
  {
    hide MarksIn, FirstText, MarksInBlock;
    var k, empty := FirstText(bs), TextParagraph("", None);
    if k == |bs| {
      MarksInOne(empty);
      MarksInConcat([empty], bs);
    } else {
      var ahead, first, after := bs[..k], [bs[k]], bs[k + 1..];
      assert bs == ahead + first + after;
      MarksInConcat(ahead + first, after);
      MarksInConcat(ahead, first);
      MarksInConcat(first + ahead, after);
      MarksInConcat(first, ahead);
    }
  }

  lemma {:induction false} PageTaken(es: seq<Event>)
    ensures MarksIn(PageBlocks(es)) == TakenIn(es) == MarksIn(CellBlocks(es))
    decreases es, 2
  {
    hide MarksIn, MarksOf, Finish, Collect, ReadAll, InTables, TakenInTables, Carried, InCellOrder, PaddedText;
    AllRead(es);
    FinishReads(ReadAll(es), Collect(NOTHING, es));
    FinishTables(Collect(NOTHING, es));
    TablesTaken(es);
    MarksSplit(PageBlocks(es));
    OrderedMarks(PageBlocks(es));
    PaddedMarks(InCellOrder(PageBlocks(es)));
  }

  lemma {:induction false} CellsTaken(cells: seq<CellEvents>)
    ensures MarksInCells(CollectCells(cells)) == TakenInCells(cells)
    decreases cells, 0
  {
    hide MarksIn, TakenIn, CellBlocks;
    if cells != [] {
      var init, cell := cells[..|cells| - 1], cells[|cells| - 1];
      CellsTaken(init);
      PageTaken(cell.events);
      var last := TextCell(cell.place, CellBlocks(cell.events));
      assert (CollectCells(init) + [last])[..|CollectCells(init)|] == CollectCells(init);
    }
  }

  /** In the whole document, cells of any depth included: the paragraphs carry the mark of each item
      that has a paragraph of its own, once, and no others. */
  lemma AllItemsAreMarked(kids: seq<Html>)
    ensures MarksIn(DocumentOf(kids)) == TakenIn(WalkKids(kids, TOP, NO_LISTS).events)
  {
    hide WalkKids, PageBlocks, MarksIn, TakenIn;
    PageText(WalkKids(kids, TOP, NO_LISTS).events);
    PageTaken(WalkKids(kids, TOP, NO_LISTS).events);
  }

  // ---- Definitions ----

  /** The definitions the ordered lists use, in the order the lists begin. */
  function OrderedIds(es: seq<Event>): seq<nat>
    decreases es, 0
  {
    if es == [] then [] else OrderedIds(es[..|es| - 1]) + OrderedIdsOf(es[|es| - 1])
  }

  function OrderedIdsOf(e: Event): seq<nat>
    decreases e, 1
  {
    match e
    case ListBegin(id, ordered, _) => if ordered then [id] else []
    case TableBlock(_, _, cells) => OrderedIdsInCells(cells)
    case _ => []
  }

  function OrderedIdsInCells(cells: seq<CellEvents>): seq<nat>
    decreases cells, 0
  {
    if cells == [] then [] else OrderedIdsInCells(cells[..|cells| - 1]) + OrderedIds(cells[|cells| - 1].events)
  }

  /** The ordered definitions from `lo` on, ascending. */
  function OrderedFrom(defs: seq<ListDef>, lo: nat): seq<nat>
    decreases |defs|
  {
    if |defs| <= lo then []
    else OrderedFrom(defs[..|defs| - 1], lo) + if defs[|defs| - 1].ordered then [|defs| - 1] else []
  }

  /** One definition for all bullets, once there is a bulleted list. */
  ghost predicate Numbered(num: Numbering) {
    && (num.bullet.Some? ==> num.bullet.value < |num.defs|)
    && forall i | 0 <= i < |num.defs| :: !num.defs[i].ordered <==> num.bullet == Some(i)
  }

  /** What a walk may do to the definitions: add some, each ordered one for one ordered list
      of the walk, in the order they begin. */
  ghost predicate Defines(num: Numbering, es: seq<Event>, after: Numbering) {
    && Numbered(after) && num.defs <= after.defs
    && (num.bullet.Some? ==> after.bullet == num.bullet)
    && OrderedIds(es) == OrderedFrom(after.defs, |num.defs|)
  }

  lemma {:induction false} OrderedIdsConcat(a: seq<Event>, b: seq<Event>)
    ensures OrderedIds(a + b) == OrderedIds(a) + OrderedIds(b)
  {
    hide OrderedIdsOf;
    if b == [] {
      assert a + b == a;
    } else {
      OrderedIdsConcat(a, b[..|b| - 1]);
      assert (a + b)[..|a + b| - 1] == a + b[..|b| - 1];
    }
  }

  lemma OrderedIdsOne(e: Event)
    ensures OrderedIds([e]) == OrderedIdsOf(e)
  {
    assert [e][..0] == [];
  }

  lemma {:induction false} OrderedFromSplit(defs: seq<ListDef>, lo: nat, mid: nat)
    requires lo <= mid <= |defs|
    ensures OrderedFrom(defs, lo) == OrderedFrom(defs[..mid], lo) + OrderedFrom(defs, mid)
    decreases |defs|
  {
    if |defs| == mid {
      assert defs[..mid] == defs;
    } else {
      var n := |defs| - 1;
      OrderedFromSplit(defs[..n], lo, mid);
      assert defs[..n][..mid] == defs[..mid];
    }
  }

  lemma DefinesConcat(num: Numbering, a: seq<Event>, mid: Numbering, b: seq<Event>, after: Numbering)
    requires Defines(num, a, mid) && Defines(mid, b, after)
    ensures Defines(num, a + b, after)
  {
    OrderedIdsConcat(a, b);
    OrderedFromSplit(after.defs, |num.defs|, |mid.defs|);
    assert after.defs[..|mid.defs|] == mid.defs;
  }

  lemma DefinesNothing(num: Numbering, es: seq<Event>)
    requires Numbered(num) && OrderedIds(es) == []
    ensures Defines(num, es, num)
  {
  }

  lemma DefinesWrapped(num: Numbering, first: Event, mid: Numbering, es: seq<Event>, after: Numbering, last: Event, end: Numbering)
    requires Defines(num, [first], mid) && Defines(mid, es, after) && Defines(after, [last], end)
    ensures Defines(num, [first] + es + [last], end)
  {
    DefinesConcat(num, [first], mid, es, after);
    DefinesConcat(num, [first] + es, after, [last], end);
  }

  lemma NewListDefines(num: Numbering, ordered: bool, start: nat)
    requires Numbered(num)
    ensures var (id, numbered) := NewList(num, ordered, start);
            && Defines(num, [ListBegin(id, ordered, start)], numbered)
            && id < |numbered.defs|
            && if ordered then numbered.defs[id] == ListDef(true, start) else numbered.bullet == Some(id)
  {
    var (id, numbered) := NewList(num, ordered, start);
    OrderedIdsOne(ListBegin(id, ordered, start));
    if |numbered.defs| > |num.defs| {
      assert numbered.defs[..|num.defs|] == num.defs;
      assert OrderedFrom(num.defs, |num.defs|) == [];
    }
  }

  lemma Plain(num: Numbering, e: Event)
    requires Numbered(num) && !e.ListBegin? && !e.TableBlock?
    ensures Defines(num, [e], num)
  {
    OrderedIdsOne(e);
  }

  lemma DefinesNone(num: Numbering)
    requires Numbered(num)
    ensures Defines(num, [], num)
  {
    DefinesNothing(num, []);
  }

  lemma {:induction false} NodeDefines(n: Html, parent: Context, num: Numbering)
    requires Numbered(num)
    ensures var w := WalkNode(n, parent, num); Defines(num, w.events, w.numbering)
    decreases Size(n), 0
  {
    hide WalkKids, WalkBlock, WalkList, WalkItem, WalkTable, WalkCells, Defines, OrderedIds;
    match n {
      case Text(text) => Plain(num, TextNode(text, parent.format, parent.pre));
      case Comment => DefinesNone(num);
      case Element(tag, _, kids) =>
        var ctx := Inside(parent, n);
        match tag {
          case Skipped => DefinesNone(num);
          case LineBreakTag => Plain(num, LineBreak);
          case Image => DefinesNone(num);
          case RuleTag => Plain(num, RuleLine);
          case TableTag => TableDefines(kids, ctx, num);
          case Unordered => ListDefines(kids, ctx, num, false, 1);
          case Ordered(start) => ListDefines(kids, ctx, num, true, Max(1, start));
          case Item => ItemDefines(kids, ctx, num);
          case BlockTag(pre) => BlockDefines(kids, if pre then ctx.(pre := true) else ctx, num);
          case Caption => BlockDefines(kids, ctx, num);
          case _ => KidsDefine(kids, ctx, num);
        }
    }
  }

  lemma {:induction false} KidsDefine(kids: seq<Html>, ctx: Context, num: Numbering)
    requires Numbered(num)
    ensures var w := WalkKids(kids, ctx, num); Defines(num, w.events, w.numbering)
    decreases SizeAll(kids), 1
  {
    hide WalkNode, Defines;
    if kids == [] {
      DefinesNothing(num, []);
    } else {
      var k := |kids| - 1;
      KidsDefine(kids[..k], ctx, num);
      var before := WalkKids(kids[..k], ctx, num);
      assert Numbered(before.numbering) by { StaysNumbered(num, before.events, before.numbering); }
      NodeDefines(kids[k], ctx, before.numbering);
      var last := WalkNode(kids[k], ctx, before.numbering);
      DefinesConcat(num, before.events, before.numbering, last.events, last.numbering);
    }
  }

  lemma StaysNumbered(num: Numbering, es: seq<Event>, after: Numbering)
    requires Defines(num, es, after)
    ensures Numbered(after)
  {
  }

  lemma {:induction false} BlockDefines(kids: seq<Html>, ctx: Context, num: Numbering)
    requires Numbered(num)
    ensures var w := WalkBlock(kids, ctx, num); Defines(num, w.events, w.numbering)
    decreases SizeAll(kids), 2
  {
    KidsDefine(kids, ctx, num);
    var inner := WalkKids(kids, ctx, num);
    Plain(num, Boundary);
    Plain(inner.numbering, Boundary);
    DefinesWrapped(num, Boundary, num, inner.events, inner.numbering, Boundary, inner.numbering);
  }

  lemma {:induction false} ListDefines(kids: seq<Html>, ctx: Context, num: Numbering, ordered: bool, start: nat)
    requires Numbered(num)
    ensures var w := WalkList(kids, ctx, num, ordered, start); Defines(num, w.events, w.numbering)
    decreases SizeAll(kids), 2
  {
    var (id, numbered) := NewList(num, ordered, start);
    NewListDefines(num, ordered, start);
    var inside := ctx.(level := Deeper(ctx.level), list := Some(id));
    KidsDefine(Elements(kids), inside, numbered);
    var inner := WalkKids(Elements(kids), inside, numbered);
    Plain(inner.numbering, ListEnd);
    DefinesWrapped(num, ListBegin(id, ordered, start), numbered, inner.events, inner.numbering, ListEnd, inner.numbering);
  }

  lemma {:induction false} ItemDefines(kids: seq<Html>, ctx: Context, num: Numbering)
    requires Numbered(num)
    ensures var w := WalkItem(kids, ctx, num); Defines(num, w.events, w.numbering)
    decreases SizeAll(kids), 2
  {
    if ctx.list.Some? {
      KidsDefine(kids, ctx, num);
      var inner := WalkKids(kids, ctx, num);
      Plain(num, ItemBegin(Mark(ctx)));
      Plain(inner.numbering, ItemEnd);
      DefinesWrapped(num, ItemBegin(Mark(ctx)), num, inner.events, inner.numbering, ItemEnd, inner.numbering);
    } else {
      var (id, numbered) := NewList(num, false, 1);
      NewListDefines(num, false, 1);
      var own := ctx.(level := 0, list := Some(id));
      KidsDefine(kids, own, numbered);
      var inner := WalkKids(kids, own, numbered);
      Plain(numbered, ItemBegin(Mark(own)));
      Plain(inner.numbering, ItemEnd);
      Plain(inner.numbering, ListEnd);
      var item := [ItemBegin(Mark(own))] + inner.events + [ItemEnd];
      DefinesWrapped(numbered, ItemBegin(Mark(own)), numbered, inner.events, inner.numbering, ItemEnd, inner.numbering);
      DefinesWrapped(num, ListBegin(id, false, 1), numbered, item, inner.numbering, ListEnd, inner.numbering);
    }
  }

  lemma {:induction false} TableDefines(kids: seq<Html>, ctx: Context, num: Numbering)
    requires Numbered(num)
    ensures var w := WalkTable(kids, ctx, num); Defines(num, w.events, w.numbering)
    decreases SizeAll(kids), 2
  {
    hide Rows, Flat, Captions, WalkKids, WalkCells, OrderedIds;
    var places := TablePlaces(kids);
    if Rows(kids) == [] {
      KidsDefine(kids, ctx, num);
    } else if TableGrid.Width(places) == 0 {
      Plain(num, Boundary);
    } else {
      RowsSmaller(kids);
      OnePlaceEach(kids);
      var captions := WalkKids(Captions(kids), ctx, num);
      KidsDefine(Captions(kids), ctx, num);
      var (cells, numbered) := WalkCells(Flat(Rows(kids)), places, ctx, captions.numbering);
      CellsDefine(Flat(Rows(kids)), places, ctx, captions.numbering);
      var table := TableBlock(|Rows(kids)|, TableGrid.Width(places), cells);
      OrderedIdsOne(table);
      Plain(num, Boundary);
      DefinesWrapped(num, Boundary, num, captions.events, captions.numbering, table, numbered);
    }
  }

  /** `Defines` for the cells of a table. */
  ghost predicate CellsDefined(num: Numbering, cells: seq<CellEvents>, after: Numbering) {
    && Numbered(after) && num.defs <= after.defs
    && (num.bullet.Some? ==> after.bullet == num.bullet)
    && OrderedIdsInCells(cells) == OrderedFrom(after.defs, |num.defs|)
  }

  lemma {:induction false} CellsDefine(cells: seq<Html>, places: seq<Placement>, ctx: Context, num: Numbering)
    requires |cells| <= |places| && forall i | 0 <= i < |cells| :: IsCell(cells[i])
    requires Numbered(num)
    ensures var w := WalkCells(cells, places, ctx, num); CellsDefined(num, w.0, w.1)
    decreases SizeAll(cells), 1
  {
    if cells != [] {
      var k := |cells| - 1;
      assert IsCell(cells[k]);
      assert Size(cells[k]) == 1 + SizeAll(cells[k].kids);
      CellsDefine(cells[..k], places, ctx, num);
      var (before, numbered) := WalkCells(cells[..k], places, ctx, num);
      var inside := InsideCell(ctx, cells[k]);
      KidsDefine(cells[k].kids, inside, numbered);
      var inner := WalkKids(cells[k].kids, inside, numbered);
      CellsDefinedSnoc(num, before, numbered, places[k], inner.events, inner.numbering);
    } else {
      assert OrderedFrom(num.defs, |num.defs|) == [];
    }
  }

  lemma CellsDefinedSnoc(num: Numbering, cells: seq<CellEvents>, mid: Numbering, place: Placement, es: seq<Event>, after: Numbering)
    requires CellsDefined(num, cells, mid) && Defines(mid, es, after)
    ensures CellsDefined(num, cells + [CellEvents(place, es)], after)
  {
    assert (cells + [CellEvents(place, es)])[..|cells|] == cells;
    OrderedFromSplit(after.defs, |num.defs|, |mid.defs|);
    assert after.defs[..|mid.defs|] == mid.defs;
  }

  ghost predicate Ascends(ids: seq<nat>) {
    forall i, j | 0 <= i < j < |ids| :: ids[i] < ids[j]
  }

  ghost predicate AllOrdered(ids: seq<nat>, defs: seq<ListDef>) {
    forall i | 0 <= i < |ids| :: ids[i] < |defs| && defs[ids[i]].ordered
  }

  lemma {:induction false} OrderedFromAscends(defs: seq<ListDef>, lo: nat)
    ensures Ascends(OrderedFrom(defs, lo)) && AllOrdered(OrderedFrom(defs, lo), defs)
    decreases |defs|
  {
    if lo < |defs| {
      var n := |defs| - 1;
      OrderedFromAscends(defs[..n], lo);
      var before := OrderedFrom(defs[..n], lo);
      AllOrderedPrefix(before, defs, n);
      if defs[n].ordered {
        assert OrderedFrom(defs, lo) == before + [n];
      } else {
        assert OrderedFrom(defs, lo) == before + [] == before;
      }
    }
  }

  lemma AllOrderedPrefix(ids: seq<nat>, defs: seq<ListDef>, n: nat)
    requires n <= |defs| && AllOrdered(ids, defs[..n])
    ensures AllOrdered(ids, defs) && forall i | 0 <= i < |ids| :: ids[i] < n
  {
    forall i | 0 <= i < |ids| ensures ids[i] < n && defs[ids[i]].ordered {
      assert ids[i] < |defs[..n]|;
    }
  }

  /** No two ordered lists of a document share a definition, every ordered definition is used
      by one, and every item carries its nearest list's. */
  lemma OrderedListsAreApart(kids: seq<Html>)
    ensures var w := WalkKids(kids, TOP, Numbering([], None));
            var ids := OrderedIds(w.events);
            && Ascends(ids) && AllOrdered(ids, w.numbering.defs)
            && ids == OrderedFrom(w.numbering.defs, 0)
            && Check([], w.events) == Some([])
  {
    var w := WalkKids(kids, TOP, Numbering([], None));
    KidsDefine(kids, TOP, Numbering([], None));
    KidsCheck(kids, TOP, Numbering([], None), []);
    OrderedFromAscends(w.numbering.defs, 0);
  }
}
