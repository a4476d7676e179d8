/** What of a translation's content reaches the document, and in what order.

    `TreeInk` is the content of the HTML: every character outside skipped elements that is
    not whitespace. The walk drops some of it: text straight inside a list or a table, what
    a table holds besides captions and cells, a table of rows without cells. `Kept` is what
    it writes and `Lost` what it drops. `EveryCharacterOnce` proves of every tree that the
    document has exactly what is kept. `Shown` is that content in the order the document has
    it, in which a cell's first paragraph goes ahead of the tables before it; `OrderIsKept`
    says exactly when that is the order of the tree. */
module ContentKept {
  import opened Options
  import opened Whitespace
  import opened Document
  import opened DocumentText
  import opened HtmlWalk
  import TableGrid

  // ---- Content of blocks ----

  function BlockInk(b: TextBlock): string
    decreases b, 1
  {
    match b
    case TextParagraph(text, _) => Ink(text)
    case TextRule => ""
    case TextTable(_, _, cells) => TextCellsInk(cells)
  }

  function BlocksInk(bs: seq<TextBlock>): string
    decreases bs, 0
  {
    if bs == [] then "" else BlocksInk(bs[..|bs| - 1]) + BlockInk(bs[|bs| - 1])
  }

  function TextCellsInk(cells: seq<TextCell>): string
    decreases cells, 0
  {
    if cells == [] then "" else TextCellsInk(cells[..|cells| - 1]) + BlocksInk(cells[|cells| - 1].blocks)
  }

  lemma {:induction false} BlocksInkConcat(a: seq<TextBlock>, b: seq<TextBlock>)
    ensures BlocksInk(a + b) == BlocksInk(a) + BlocksInk(b)
  {
    hide BlockInk;
    if b == [] {
      assert a + b == a;
    } else {
      var init, ink := b[..|b| - 1], BlockInk(b[|b| - 1]);
      BlocksInkConcat(a, init);
      assert (a + b)[..|a + b| - 1] == a + init;
      assert BlocksInk(a) + BlocksInk(init) + ink == BlocksInk(a) + (BlocksInk(init) + ink);
    }
  }

  lemma BlocksInkOne(b: TextBlock)
    ensures BlocksInk([b]) == BlockInk(b)
  {
    assert [b][..0] == [];
  }

  // ---- The content of lines ----

  lemma {:induction false} StripRightInk(s: string)
    ensures Ink(StripRight(s, '\n')) == Ink(s)
  {
    if EndsWith(s, '\n') {
      StripRightInk(s[..|s| - 1]);
    }
  }

  lemma {:induction false} StripLeftInk(s: string)
    ensures Ink(StripLeft(s, '\n')) == Ink(s)
  {
    if s != "" && s[0] == '\n' {
      StripLeftInk(s[1..]);
      assert s == "\n" + s[1..];
      InkConcat("\n", s[1..]);
      InkOne('\n');
    }
  }

  lemma {:induction false} CleanInk(s: string)
    ensures Ink(Clean(s)) == Ink(s)
  {
    if s != "" {
      var n := |s| - 1;
      CleanInk(s[..n]);
      var last := if Forbidden(s[n]) then "" else [s[n]];
      InkConcat(Clean(s[..n]), last);
      InkOne(s[n]);
    }
  }

  lemma TextTokensInk(raw: string, preformatted: bool)
    ensures TokenInk(TextTokens(raw, preformatted)) == Ink(raw)
  {
    if preformatted {
      var text := Clean(raw);
      CleanInk(raw);
      StripLeftInk(text);
      StripRightInk(StripLeft(text, '\n'));
      var body := Strip(text, '\n');
      assert Ink(body) == Ink(raw);
      assert [Verbatim(body)][..0] == [];
    } else {
      CharsInk(raw);
    }
  }

  lemma ParagraphInk(line: seq<Token>)
    ensures Ink(ParagraphText(line)) == TokenInk(line)
  {
    ParagraphTextIsRun(line);
    RunInk(EMPTY_LINE, line);
  }

  lemma {:induction false} BlankLineInk(line: seq<Token>)
    requires !Opens(line)
    ensures TokenInk(line) == ""
  {
    if line != [] {
      var n := |line| - 1;
      assert line == line[..n] + [line[n]];
      OpensSnoc(line[..n], line[n]);
      BlankLineInk(line[..n]);
    }
  }

  // ---- Reading a page or a cell ----

  datatype Phase = Ahead | Under | Past

  /** The content read so far: of the tables ahead of the first paragraph or rule, of that
      paragraph, and after it; and whether it is still to come, under way or done. */
  datatype Front = Front(tables: string, first: string, rest: string, phase: Phase)

  const START := Front("", "", "", Ahead)

  ghost predicate Formed(f: Front) {
    (f.phase.Ahead? ==> f.first == "" == f.rest) && (f.phase.Under? ==> f.rest == "")
  }

  /** The content as it comes. */
  function Whole(f: Front): string {
    f.tables + f.first + f.rest
  }

  /** The content as a cell shows it: its first paragraph is the one the cell begins with. */
  function Moved(f: Front): string {
    f.first + f.tables + f.rest
  }

  function Put(f: Front, ink: string, opens: bool): Front {
    match f.phase
    case Ahead => if opens then f.(first := ink, phase := Under) else f
    case Under => f.(first := f.first + ink)
    case Past => f.(rest := f.rest + ink)
  }

  function PutText(f: Front, raw: string, pre: bool): Front {
    Put(f, Ink(raw), Opens(TextTokens(raw, pre)))
  }

  /** The end of a paragraph, if one is under way. */
  function Edge(f: Front): Front {
    if f.phase.Under? then f.(phase := Past) else f
  }

  function PutRule(f: Front): Front {
    f.(phase := Past)
  }

  function PutTable(f: Front, ink: string): Front {
    if f.phase.Ahead? then f.(tables := f.tables + ink) else f.(rest := f.rest + ink, phase := Past)
  }

  function ReadEvent(f: Front, e: Event): Front
    decreases e, 1
  {
    match e
    case TextNode(raw, _, preformatted) => PutText(f, raw, preformatted)
    case LineBreak => Put(f, "", true)
    case RuleLine => PutRule(f)
    case TableBlock(_, _, cells) => PutTable(f, ReadCells(cells))
    case _ => Edge(f)
  }

  function ReadEvents(f: Front, es: seq<Event>): Front
    decreases es, 0
  {
    if es == [] then f else ReadEvent(ReadEvents(f, es[..|es| - 1]), es[|es| - 1])
  }

  function ReadCells(cells: seq<CellEvents>): string
    decreases cells, 0
  {
    if cells == [] then "" else ReadCells(cells[..|cells| - 1]) + Moved(ReadEvents(START, cells[|cells| - 1].events))
  }

  /** What was read is what was gathered. */
  ghost predicate ReadAs(f: Front, g: Gathered) {
    var k := FirstText(g.done);
    && Formed(f)
    && match f.phase
       case Ahead => k == |g.done| && BlocksInk(g.done) == f.tables && !Opens(g.line)
       case Under => k == |g.done| && BlocksInk(g.done) == f.tables && Opens(g.line) && TokenInk(g.line) == f.first
       case Past =>
         && k < |g.done| && BlocksInk(g.done[..k]) == f.tables && BlockInk(g.done[k]) == f.first
         && BlocksInk(g.done[k + 1..]) + TokenInk(g.line) == f.rest
  }

  lemma FirstTextSnoc(bs: seq<TextBlock>, b: TextBlock)
    ensures FirstText(bs + [b]) == if FirstText(bs) < |bs| || !b.TextTable? then FirstText(bs) else |bs| + 1
  {
    assert (bs + [b])[..|bs|] == bs;
  }

  lemma NoInk()
    ensures BlocksInk([]) == "" && TokenInk([]) == "" && !Opens([]) && FirstText([]) == 0
  {
  }

  /** One more block, with nothing gathered on the line. */
  lemma BlockFits(f: Front, g: Gathered, b: TextBlock)
    requires ReadAs(f, g) && g.line == [] && !f.phase.Under?
    ensures b.TextTable? ==> ReadAs(PutTable(f, BlockInk(b)), g.(done := g.done + [b]))
    ensures !b.TextTable? && f.phase.Ahead? ==> ReadAs(f.(first := BlockInk(b), phase := Past), g.(done := g.done + [b]))
    ensures !b.TextTable? && f.phase.Past? ==> ReadAs(f.(rest := f.rest + BlockInk(b)), g.(done := g.done + [b]))
  {
    hide BlocksInk, BlockInk, FirstText, Opens, TokenInk;
    NoInk();
    var k, more := FirstText(g.done), g.done + [b];
    FirstTextSnoc(g.done, b);
    BlocksInkOne(b);
    if f.phase.Past? {
      assert more[..k] == g.done[..k] && more[k] == g.done[k] && more[k + 1..] == g.done[k + 1..] + [b];
      BlocksInkConcat(g.done[k + 1..], [b]);
      assert BlocksInk(g.done[k + 1..]) + "" + BlockInk(b) == BlocksInk(g.done[k + 1..]) + BlockInk(b) + "";
    } else {
      BlocksInkConcat(g.done, [b]);
      assert more[..|g.done|] == g.done && more[|g.done| + 1..] == [];
    }
  }

  lemma FinishFits(f: Front, g: Gathered)
    requires ReadAs(f, g)
    ensures ReadAs(Edge(f), Finish(g)) && Finish(g).line == []
  {
    hide BlocksInk, BlockInk, FirstText, Opens, TokenInk, ParagraphText;
    NoInk();
    if Opens(g.line) {
      var p := TextParagraph(ParagraphText(g.line), g.mark);
      var bare := g.(line := []);
      ParagraphInk(g.line);
      InkOfParagraph(p);
      if f.phase.Under? {
        BlockFits(f.(first := "", phase := Ahead), bare, p);
        assert f == f.(first := TokenInk(g.line), rest := "");
      } else {
        BlockFits(f.(rest := BlocksInk(g.done[FirstText(g.done) + 1..])), bare.(mark := None), p);
        assert BlocksInk(g.done[FirstText(g.done) + 1..]) + "" == BlocksInk(g.done[FirstText(g.done) + 1..]);
      }
    } else {
      BlankLineInk(g.line);
    }
  }

  lemma InkOfParagraph(p: TextBlock)
    requires p.TextParagraph?
    ensures BlockInk(p) == Ink(p.text)
  {
  }

  /** More on the line. */
  lemma LineFits(f: Front, g: Gathered, more: seq<Token>)
    requires ReadAs(f, g)
    ensures ReadAs(Put(f, TokenInk(more), Opens(more)), g.(line := g.line + more))
  {
    hide ReadAs, TokenInk, Opens;
    match f.phase {
      case Ahead => LineAhead(f, g, more);
      case Under => LineUnder(f, g, more);
      case Past => LinePast(f, g, more);
    }
  }

  lemma LineAhead(f: Front, g: Gathered, more: seq<Token>)
    requires ReadAs(f, g) && f.phase.Ahead?
    ensures ReadAs(Put(f, TokenInk(more), Opens(more)), g.(line := g.line + more))
  {
    hide BlocksInk, BlockInk, FirstText, TokenInk, Opens;
    TokenInkConcat(g.line, more);
    OpensConcat(g.line, more);
    BlankLineInk(g.line);
    assert "" + TokenInk(more) == TokenInk(more);
  }

  lemma LineUnder(f: Front, g: Gathered, more: seq<Token>)
    requires ReadAs(f, g) && f.phase.Under?
    ensures ReadAs(Put(f, TokenInk(more), Opens(more)), g.(line := g.line + more))
  {
    hide BlocksInk, BlockInk, FirstText, TokenInk, Opens;
    TokenInkConcat(g.line, more);
    OpensConcat(g.line, more);
  }

  lemma LinePast(f: Front, g: Gathered, more: seq<Token>)
    requires ReadAs(f, g) && f.phase.Past?
    ensures ReadAs(Put(f, TokenInk(more), Opens(more)), g.(line := g.line + more))
  {
    hide BlocksInk, BlockInk, FirstText, TokenInk, Opens;
    TokenInkConcat(g.line, more);
    var after := BlocksInk(g.done[FirstText(g.done) + 1..]);
    assert after + TokenInk(g.line) + TokenInk(more) == after + (TokenInk(g.line) + TokenInk(more));
  }

  lemma BreakToken()
    ensures TokenInk([Br]) == "" && Opens([Br])
  {
    assert [Br][..0] == [] && OpensOn([Br][0]);
  }

  lemma SameFit(f: Front, g: Gathered, mark: Option<ItemMark>)
    requires ReadAs(f, g)
    ensures ReadAs(f, g.(mark := mark))
  {
  }

  lemma TableInk(height: nat, width: nat, cells: seq<TextCell>)
    ensures BlockInk(TextTable(height, width, cells)) == TextCellsInk(cells) && BlockInk(TextRule) == ""
  {
  }

  lemma {:induction false} EventFits(f: Front, g: Gathered, e: Event)
    requires ReadAs(f, g)
    ensures ReadAs(ReadEvent(f, e), CollectOne(g, e))
    decreases e, 1
  {
    hide Finish, ReadAs, TextTokens, Opens, TokenInk, Ink, BlockInk, TextCellsInk, CollectCells, ReadCells;
    FinishFits(f, g);
    match e {
      case TextNode(raw, _, preformatted) =>
        TextTokensInk(raw, preformatted);
        LineFits(f, g, TextTokens(raw, preformatted));
      case LineBreak =>
        BreakToken();
        LineFits(f, g, [Br]);
      case RuleLine =>
        TableInk(0, 0, []);
        RuleFits(f, g);
      case TableBlock(height, width, cells) =>
        CellsFit(cells);
        TableInk(height, width, CollectCells(cells));
        BlockFits(Edge(f), Finish(g), TextTable(height, width, CollectCells(cells)));
      case ItemBegin(mark) => SameFit(Edge(f), Finish(g), Some(mark));
      case ItemEnd => SameFit(Edge(f), Finish(g), None);
      case _ =>
    }
  }

  lemma RuleFits(f: Front, g: Gathered)
    requires ReadAs(Edge(f), Finish(g)) && Finish(g).line == [] && BlockInk(TextRule) == ""
    ensures var done := Finish(g).(done := Finish(g).done + [TextRule]); ReadAs(PutRule(f), done)
  {
    hide Finish, BlocksInk, BlockInk, FirstText, Opens, TokenInk;
    BlockFits(Edge(f), Finish(g), TextRule);
    assert f.rest + "" == f.rest;
  }

  lemma {:induction false} EventsFit(es: seq<Event>)
    ensures ReadAs(ReadEvents(START, es), Collect(NOTHING, es))
    decreases es, 0
  {
    hide ReadEvent, CollectOne, ReadAs;
    if es == [] {
      NothingFits();
    } else {
      EventsFit(es[..|es| - 1]);
      EventFits(ReadEvents(START, es[..|es| - 1]), Collect(NOTHING, es[..|es| - 1]), es[|es| - 1]);
    }
  }

  lemma NothingFits()
    ensures ReadAs(START, NOTHING)
  {
    NoInk();
  }

  lemma SplitAt(bs: seq<TextBlock>, k: nat)
    requires k < |bs|
    ensures bs == bs[..k] + [bs[k]] + bs[k + 1..]
  {
  }

  /** The blocks before the first paragraph or rule, that one, and those after it. */
  lemma ThreeParts(f: Front, bs: seq<TextBlock>)
    requires ReadAs(f, Gathered(bs, [], None)) && !f.phase.Under?
    ensures BlocksInk(bs) == Whole(f) && BlocksInk(InCellOrder(bs)) == Moved(f)
  {
    hide BlockInk, BlocksInk, FirstText, Opens, TokenInk;
    NoInk();
    var k := FirstText(bs);
    if k == |bs| {
      BlocksInkConcat([TextParagraph("", None)], bs);
      EmptyInk();
      assert "" + f.tables == f.tables && f.tables + "" == f.tables;
    } else {
      var ahead, first, after := bs[..k], [bs[k]], bs[k + 1..];
      BlocksInkOne(bs[k]);
      SplitAt(bs, k);
      BlocksInkConcat(ahead + first, after);
      BlocksInkConcat(ahead, first);
      BlocksInkConcat(first + ahead, after);
      BlocksInkConcat(first, ahead);
      assert f.rest == BlocksInk(after) + "";
    }
  }

  lemma PhasePast(f: Front)
    ensures !Edge(f).phase.Under? && Whole(Edge(f)) == Whole(f) && Moved(Edge(f)) == Moved(f)
  {
  }

  /** A page has the content as it comes, a cell with its first paragraph moved to the front. */
  lemma {:induction false} PageRead(es: seq<Event>)
    ensures BlocksInk(PageBlocks(es)) == Whole(ReadEvents(START, es))
    ensures BlocksInk(CellBlocks(es)) == Moved(ReadEvents(START, es))
    decreases es, 2
  {
    hide BlocksInk, ReadAs, Finish, Collect, ReadEvents;
    var f, g := ReadEvents(START, es), Collect(NOTHING, es);
    EventsFit(es);
    FinishFits(f, g);
    PhasePast(f);
    SameFit(Edge(f), Finish(g), None);
    assert Finish(g).(mark := None) == Gathered(Finish(g).done, [], None);
    ThreeParts(Edge(f), PageBlocks(es));
    PaddedInk(InCellOrder(PageBlocks(es)));
  }

  lemma {:induction false} CellsFit(cells: seq<CellEvents>)
    ensures TextCellsInk(CollectCells(cells)) == ReadCells(cells)
    decreases cells, 0
  {
    hide CellBlocks, PageBlocks, BlocksInk, ReadEvents;
    if cells != [] {
      var init, cell := cells[..|cells| - 1], cells[|cells| - 1];
      CellsFit(init);
      PageRead(cell.events);
      TextCellsSnoc(CollectCells(init), TextCell(cell.place, CellBlocks(cell.events)));
    }
  }

  lemma TextCellsSnoc(cells: seq<TextCell>, cell: TextCell)
    ensures TextCellsInk(cells + [cell]) == TextCellsInk(cells) + BlocksInk(cell.blocks)
  {
    assert (cells + [cell])[..|cells|] == cells;
  }

  /** A cell keeps its order exactly when it has no paragraph or rule, or that and the content of
      the tables ahead of it can change places unseen. */
  lemma CellOrderExactly(es: seq<Event>)
    ensures var bs, k := PageBlocks(es), FirstText(PageBlocks(es));
            BlocksInk(CellBlocks(es)) == BlocksInk(bs)
            <==> k == |bs| || BlocksInk(bs[..k]) + BlockInk(bs[k]) == BlockInk(bs[k]) + BlocksInk(bs[..k])
  {
    hide BlocksInk, BlockInk, FirstText, PageBlocks, TokenInk;
    var bs := PageBlocks(es);
    var k := FirstText(bs);
    PaddedInk(InCellOrder(bs));
    NoInk();
    if k == |bs| {
      BlocksInkConcat([TextParagraph("", None)], bs);
      EmptyInk();
    } else {
      var ahead, first, after := bs[..k], [bs[k]], bs[k + 1..];
      BlocksInkOne(bs[k]);
      SplitAt(bs, k);
      BlocksInkConcat(ahead + first, after);
      BlocksInkConcat(ahead, first);
      BlocksInkConcat(first + ahead, after);
      BlocksInkConcat(first, ahead);
      SameTail(BlocksInk(first) + BlocksInk(ahead), BlocksInk(ahead) + BlocksInk(first), BlocksInk(after));
    }
  }

  lemma SameTail(a: string, b: string, c: string)
    requires |a| == |b|
    ensures a + c == b + c <==> a == b
  {
    assert (a + c)[..|a|] == a && (b + c)[..|b|] == b;
  }

  lemma {:induction false} PaddedInk(bs: seq<TextBlock>)
    ensures BlocksInk(PaddedText(bs)) == BlocksInk(bs)
  {
    hide BlockInk, BlocksInk;
    if bs == [] {
    } else {
      var init, last := bs[..|bs| - 1], bs[|bs| - 1];
      PaddedInk(init);
      assert bs == init + [last];
      BlocksInkConcat(init, [last]);
      BlocksInkConcat(PaddedText(init), [last]);
      if last.TextTable? {
        EmptyInk();
        assert PaddedText(init) + [last, TextParagraph("", None)] == PaddedText(init) + [last] + [TextParagraph("", None)];
        BlocksInkConcat(PaddedText(init) + [last], [TextParagraph("", None)]);
      }
    }
  }

  lemma EmptyInk()
    ensures BlocksInk([TextParagraph("", None)]) == ""
  {
    BlocksInkOne(TextParagraph("", None));
  }

  // ---- The content of the HTML, and what of it the walk does not reach ----

  /** The children a table shows after its captions. */
  function Others(kids: seq<Html>): (out: seq<Html>)
    ensures SizeAll(out) <= SizeAll(kids)
  {
    if kids == [] then []
    else
      var before, last := Others(kids[..|kids| - 1]), kids[|kids| - 1];
      if Is(last, Caption) then before
      else
        assert (before + [last])[..|before|] == before;
        before + [last]
  }

  /** The content of a tree: a table's captions first, everything else as it stands. */
  function TreeInk(n: Html): string
    decreases Size(n), 0
  {
    match n
    case Text(text) => Ink(text)
    case Comment => ""
    case Element(tag, _, kids) =>
      if tag.Skipped? then ""
      else if tag.TableTag? && Rows(kids) != [] then KidsInk(Captions(kids)) + KidsInk(Others(kids))
      else KidsInk(kids)
  }

  function KidsInk(kids: seq<Html>): string
    decreases SizeAll(kids), 1
  {
    if kids == [] then "" else KidsInk(kids[..|kids| - 1]) + TreeInk(kids[|kids| - 1])
  }

  /** The content the walk writes: of a list its elements', of a table its captions' and its
      cells', of a table without columns nothing. */
  function Kept(n: Html): string
    decreases Size(n), 0
  {
    match n
    case Text(text) => Ink(text)
    case Comment => ""
    case Element(tag, _, kids) =>
      if tag.Skipped? || tag.LineBreakTag? || tag.Image? || tag.RuleTag? then ""
      else if tag.TableTag? && Rows(kids) != [] then
        RowsSmaller(kids);
        if TableGrid.Width(TablePlaces(kids)) == 0 then ""
        else KeptAll(Captions(kids)) + KeptAll(Flat(Rows(kids)))
      else if tag.Unordered? || tag.Ordered? then KeptAll(Elements(kids))
      else KeptAll(kids)
  }

  function KeptAll(kids: seq<Html>): string
    decreases SizeAll(kids), 1
  {
    if kids == [] then "" else KeptAll(kids[..|kids| - 1]) + Kept(kids[|kids| - 1])
  }

  /** Content straight inside a list, outside its elements. */
  function LooseText(kids: seq<Html>): string {
    if kids == [] then ""
    else LooseText(kids[..|kids| - 1]) + if kids[|kids| - 1].Element? then "" else TreeInk(kids[|kids| - 1])
  }

  /** Content of a row outside its cells. */
  function LooseInRow(kids: seq<Html>): string {
    if kids == [] then ""
    else LooseInRow(kids[..|kids| - 1]) + if IsCell(kids[|kids| - 1]) then "" else TreeInk(kids[|kids| - 1])
  }

  /** Content of a row group outside its rows' cells. */
  function LooseInGroup(kids: seq<Html>): string {
    if kids == [] then ""
    else
      var last := kids[|kids| - 1];
      LooseInGroup(kids[..|kids| - 1]) + if Is(last, Row) then LooseInRow(last.kids) else TreeInk(last)
  }

  /** Content of a table outside its captions and cells. */
  function LooseInTable(kids: seq<Html>): string {
    if kids == [] then ""
    else
      var last := kids[|kids| - 1];
      LooseInTable(kids[..|kids| - 1]) +
      if Is(last, Caption) then ""
      else if Is(last, Row) then LooseInRow(last.kids)
      else if Is(last, RowGroup) then LooseInGroup(last.kids)
      else TreeInk(last)
  }

  /** The content of a tree that is not written. */
  function Lost(n: Html): string
    decreases Size(n), 0
  {
    if !n.Element? || n.tag.Skipped? then ""
    else if n.tag.LineBreakTag? || n.tag.Image? || n.tag.RuleTag? then KidsInk(n.kids)
    else if n.tag.TableTag? && Rows(n.kids) != [] then
      RowsSmaller(n.kids);
      if TableGrid.Width(TablePlaces(n.kids)) == 0 then TreeInk(n)
      else LostAll(Captions(n.kids)) + (LostAll(Flat(Rows(n.kids))) + LooseInTable(n.kids))
    else if n.tag.Unordered? || n.tag.Ordered? then LostAll(Elements(n.kids)) + LooseText(n.kids)
    else LostAll(n.kids)
  }

  function LostAll(kids: seq<Html>): string
    decreases SizeAll(kids), 1
  {
    if kids == [] then "" else LostAll(kids[..|kids| - 1]) + Lost(kids[|kids| - 1])
  }

  /** `part` and `lost` are the characters of `whole`; with none lost, `part` is the whole. */
  ghost predicate Accounts(part: string, whole: string, lost: string) {
    multiset(part) + multiset(lost) == multiset(whole) && (lost == "" ==> part == whole)
  }

  lemma AccountsConcat(a: string, b: string, x: string, c: string, d: string, y: string)
    requires Accounts(a, b, x) && Accounts(c, d, y)
    ensures Accounts(a + c, b + d, x + y)
  {
    assert multiset(a + c) == multiset(a) + multiset(c);
    assert multiset(b + d) == multiset(b) + multiset(d);
    assert multiset(x + y) == multiset(x) + multiset(y);
  }

  /** Losing something is not keeping the whole. */
  lemma AccountsExactly(part: string, whole: string, lost: string)
    requires Accounts(part, whole, lost)
    ensures part == whole <==> lost == ""
  {
    assert |multiset(part)| == |part| && |multiset(whole)| == |whole| && |multiset(lost)| == |lost|;
  }

  lemma {:induction false} KidsInkConcat(a: seq<Html>, b: seq<Html>)
    ensures KidsInk(a + b) == KidsInk(a) + KidsInk(b)
  {
    hide TreeInk;
    if b == [] {
      assert a + b == a;
    } else {
      KidsInkConcat(a, b[..|b| - 1]);
      assert (a + b)[..|a + b| - 1] == a + b[..|b| - 1];
    }
  }

  lemma KidsInkSnoc(a: seq<Html>, n: Html)
    ensures KidsInk(a + [n]) == KidsInk(a) + TreeInk(n)
  {
    assert (a + [n])[..|a|] == a;
  }

  lemma NoneKept(whole: string)
    ensures Accounts("", whole, whole)
  {
  }

  lemma NoneLost(whole: string)
    ensures Accounts(whole, whole, "")
  {
  }

  lemma {:induction false} ElementsAccount(kids: seq<Html>)
    ensures Accounts(KidsInk(Elements(kids)), KidsInk(kids), LooseText(kids))
  {
    hide TreeInk, KidsInk, Accounts;
    if kids == [] {
      NoneLost(KidsInk([]));
    } else {
      var init, last := kids[..|kids| - 1], kids[|kids| - 1];
      ElementsAccount(init);
      KidsInkSnoc(Elements(init), last);
      KidsInkSnoc(init, last);
      NoneLost(TreeInk(last));
      NoneKept(TreeInk(last));
      AccountsConcat(KidsInk(Elements(init)), KidsInk(init), LooseText(init), if last.Element? then TreeInk(last) else "",
                     TreeInk(last), if last.Element? then "" else TreeInk(last));
      assert init + [last] == kids && KidsInk(Elements(init)) + "" == KidsInk(Elements(init));
    }
  }

  lemma {:induction false} CellsAccount(kids: seq<Html>)
    ensures Accounts(KidsInk(Cells(kids)), KidsInk(kids), LooseInRow(kids))
  {
    hide TreeInk, KidsInk, Accounts;
    if kids == [] {
      NoneLost(KidsInk([]));
    } else {
      var init, last := kids[..|kids| - 1], kids[|kids| - 1];
      CellsAccount(init);
      KidsInkSnoc(Cells(init), last);
      KidsInkSnoc(init, last);
      NoneLost(TreeInk(last));
      NoneKept(TreeInk(last));
      AccountsConcat(KidsInk(Cells(init)), KidsInk(init), LooseInRow(init), if IsCell(last) then TreeInk(last) else "",
                     TreeInk(last), if IsCell(last) then "" else TreeInk(last));
      assert init + [last] == kids && KidsInk(Cells(init)) + "" == KidsInk(Cells(init));
    }
  }

  lemma RowInk(n: Html)
    requires n.Element? && (n.tag.Row? || n.tag.RowGroup? || n.tag.CellTag?)
    ensures TreeInk(n) == KidsInk(n.kids)
  {
  }

  /** One child of a row group. */
  lemma GroupChildAccounts(last: Html)
    ensures var more := if Is(last, Row) then [Cells(last.kids)] else [];
            Accounts(KidsInk(Flat(more)), TreeInk(last), if Is(last, Row) then LooseInRow(last.kids) else TreeInk(last))
  {
    if Is(last, Row) {
      hide TreeInk, KidsInk, Flat;
      FlatOne(Cells(last.kids));
      CellsAccount(last.kids);
      RowInk(last);
    }
  }

  lemma {:induction false} GroupAccounts(kids: seq<Html>)
    ensures Accounts(KidsInk(Flat(GroupRows(kids))), KidsInk(kids), LooseInGroup(kids))
  {
    if kids != [] {
      hide TreeInk, Accounts, LooseInRow, Cells, Flat;
      var init, last := kids[..|kids| - 1], kids[|kids| - 1];
      var more := if Is(last, Row) then [Cells(last.kids)] else [];
      GroupAccounts(init);
      GroupChildAccounts(last);
      FlatConcat(GroupRows(init), more);
      KidsInkConcat(Flat(GroupRows(init)), Flat(more));
      AccountsConcat(KidsInk(Flat(GroupRows(init))), KidsInk(init), LooseInGroup(init), KidsInk(Flat(more)), TreeInk(last),
                     if Is(last, Row) then LooseInRow(last.kids) else TreeInk(last));
    }
  }

  /** What one child of a table loses. */
  function LooseChild(last: Html): string {
    if Is(last, Row) then LooseInRow(last.kids)
    else if Is(last, RowGroup) then LooseInGroup(last.kids)
    else TreeInk(last)
  }

  function ChildRows(last: Html): seq<seq<Html>> {
    if Is(last, Row) then [Cells(last.kids)]
    else if Is(last, RowGroup) then GroupRows(last.kids)
    else []
  }

  lemma TableChildAccounts(last: Html)
    ensures Accounts(KidsInk(Flat(ChildRows(last))), TreeInk(last), LooseChild(last))
  {
    if Is(last, Row) {
      GroupChildAccounts(last);
    } else if Is(last, RowGroup) {
      GroupAccounts(last.kids);
      RowInk(last);
    }
  }

  lemma NoTableKids()
    ensures Accounts(KidsInk(Flat(Rows([]))), KidsInk(Others([])), LooseInTable([]))
  {
  }

  lemma TableSnoc(kids: seq<Html>)
    requires kids != []
    ensures var init, last := kids[..|kids| - 1], kids[|kids| - 1];
            && Rows(kids) == Rows(init) + ChildRows(last)
            && LooseInTable(kids) == LooseInTable(init) + (if Is(last, Caption) then "" else LooseChild(last))
            && Others(kids) == if Is(last, Caption) then Others(init) else Others(init) + [last]
  {
    hide LooseInRow, LooseInGroup, GroupRows, Cells, TreeInk;
  }

  lemma {:induction false} TableAccounts(kids: seq<Html>)
    ensures Accounts(KidsInk(Flat(Rows(kids))), KidsInk(Others(kids)), LooseInTable(kids))
  {
    hide TreeInk, KidsInk, Accounts, LooseChild, ChildRows, Flat, Rows, Others, LooseInTable;
    if kids == [] {
      NoTableKids();
    } else {
      var init, last := kids[..|kids| - 1], kids[|kids| - 1];
      var more := ChildRows(last);
      TableSnoc(kids);
      TableAccounts(init);
      if Is(last, Caption) {
        NoRows(last);
        assert Rows(init) + [] == Rows(init) && LooseInTable(init) + "" == LooseInTable(init);
      } else {
        TableChildAccounts(last);
        FlatConcat(Rows(init), more);
        KidsInkConcat(Flat(Rows(init)), Flat(more));
        KidsInkSnoc(Others(init), last);
        AccountsConcat(KidsInk(Flat(Rows(init))), KidsInk(Others(init)), LooseInTable(init), KidsInk(Flat(more)),
                       TreeInk(last), LooseChild(last));
      }
    }
  }

  lemma NoRows(caption: Html)
    requires Is(caption, Caption)
    ensures ChildRows(caption) == []
  {
  }

  // ---- What is kept, and what is lost, is all of it ----

  lemma {:induction false} NodeAccounts(n: Html)
    ensures Accounts(Kept(n), TreeInk(n), Lost(n))
    decreases Size(n), 0
  {
    hide KidsInk, LostAll, KeptAll, LooseText, LooseInTable;
    if n.Element? && !n.tag.Skipped? {
      var kids := n.kids;
      if n.tag.LineBreakTag? || n.tag.Image? || n.tag.RuleTag? {
      } else if n.tag.TableTag? && Rows(kids) != [] {
        TableNodeAccounts(n);
      } else if n.tag.Unordered? || n.tag.Ordered? {
        KidsAccount(Elements(kids));
        ElementsAccount(kids);
        AccountsTwice(KeptAll(Elements(kids)), KidsInk(Elements(kids)), KidsInk(kids), LostAll(Elements(kids)), LooseText(kids));
      } else {
        KidsAccount(kids);
      }
    }
  }

  /** Of a whole, first some is lost and then some of the rest. */
  lemma AccountsTwice(part: string, rest: string, whole: string, lost: string, loose: string)
    requires Accounts(part, rest, lost) && Accounts(rest, whole, loose)
    ensures Accounts(part, whole, lost + loose)
  {
    assert multiset(lost + loose) == multiset(lost) + multiset(loose);
  }

  lemma {:induction false} TableNodeAccounts(n: Html)
    requires Is(n, TableTag) && Rows(n.kids) != []
    ensures Accounts(Kept(n), TreeInk(n), Lost(n))
    decreases SizeAll(n.kids), 2
  {
    hide KidsInk, LostAll, KeptAll, LooseInTable, Rows, Flat, Captions, Others, Accounts;
    var kids := n.kids;
    if TableGrid.Width(TablePlaces(kids)) == 0 {
      NoneKept(TreeInk(n));
    } else {
      RowsSmaller(kids);
      KidsAccount(Captions(kids));
      KidsAccount(Flat(Rows(kids)));
      TableAccounts(kids);
      AccountsTwice(KeptAll(Flat(Rows(kids))), KidsInk(Flat(Rows(kids))), KidsInk(Others(kids)),
                    LostAll(Flat(Rows(kids))), LooseInTable(kids));
      AccountsConcat(KeptAll(Captions(kids)), KidsInk(Captions(kids)), LostAll(Captions(kids)),
                     KeptAll(Flat(Rows(kids))), KidsInk(Others(kids)), LostAll(Flat(Rows(kids))) + LooseInTable(kids));
    }
  }

  lemma {:induction false} KidsAccount(kids: seq<Html>)
    ensures Accounts(KeptAll(kids), KidsInk(kids), LostAll(kids))
    decreases SizeAll(kids), 1
  {
    hide Kept, TreeInk, Lost;
    if kids != [] {
      var k := |kids| - 1;
      KidsAccount(kids[..k]);
      NodeAccounts(kids[k]);
      AccountsConcat(KeptAll(kids[..k]), KidsInk(kids[..k]), LostAll(kids[..k]), Kept(kids[k]), TreeInk(kids[k]), Lost(kids[k]));
    }
  }

  // ---- The content in the order it is shown ----

  /** Reading a tree: with `moved`, each cell's first paragraph goes ahead of the tables before it,
      as the document has it; without, everything stays as it comes. */
  function ReadNode(f: Front, n: Html, pre: bool, moved: bool): Front
    decreases Size(n), 0
  {
    match n
    case Text(text) => PutText(f, text, pre)
    case Comment => f
    case Element(tag, _, kids) =>
      if tag.Skipped? || tag.Image? then f
      else if tag.LineBreakTag? then Put(f, "", true)
      else if tag.RuleTag? then PutRule(f)
      else if tag.TableTag? && Rows(kids) != [] then
        RowsSmaller(kids);
        if TableGrid.Width(TablePlaces(kids)) == 0 then Edge(f)
        else PutTable(ReadKids(Edge(f), Captions(kids), pre, moved), CellsContent(Flat(Rows(kids)), pre, moved))
      else if tag.Unordered? || tag.Ordered? then Edge(ReadKids(Edge(f), Elements(kids), pre, moved))
      else if tag.Item? || tag.BlockTag? || tag.Caption? then Edge(ReadKids(Edge(f), kids, PreInside(tag, pre), moved))
      else ReadKids(f, kids, pre, moved)
  }

  function ReadKids(f: Front, kids: seq<Html>, pre: bool, moved: bool): Front
    decreases SizeAll(kids), 1
  {
    if kids == [] then f else ReadNode(ReadKids(f, kids[..|kids| - 1], pre, moved), kids[|kids| - 1], pre, moved)
  }

  function Arranged(f: Front, moved: bool): string {
    if moved then Moved(f) else Whole(f)
  }

  function CellsContent(cells: seq<Html>, pre: bool, moved: bool): string
    decreases SizeAll(cells), 1
  {
    if cells == [] then ""
    else
      var cell := cells[|cells| - 1];
      CellsContent(cells[..|cells| - 1], pre, moved)
      + if cell.Element? then
          assert Size(cell) == 1 + SizeAll(cell.kids);
          Arranged(ReadKids(START, cell.kids, pre, moved), moved)
        else ""
  }

  /** The content of a body's children in the order the document has it. */
  function Shown(kids: seq<Html>): string {
    Whole(ReadKids(START, kids, false, true))
  }

  // ---- The walk writes what is shown ----

  lemma {:induction false} ReadConcat(f: Front, a: seq<Event>, b: seq<Event>)
    ensures ReadEvents(f, a + b) == ReadEvents(ReadEvents(f, a), b)
    decreases |b|
  {
    hide ReadEvent;
    if b == [] {
      assert a + b == a;
    } else {
      ReadConcat(f, a, b[..|b| - 1]);
      assert (a + b)[..|a + b| - 1] == a + b[..|b| - 1];
    }
  }

  lemma ReadOne(f: Front, e: Event)
    ensures ReadEvents(f, [e]) == ReadEvent(f, e)
  {
    assert [e][..0] == [];
  }

  predicate IsEdge(e: Event) {
    e.Boundary? || e.ListBegin? || e.ListEnd? || e.ItemBegin? || e.ItemEnd?
  }

  lemma ReadWrapped(f: Front, first: Event, es: seq<Event>, last: Event)
    requires IsEdge(first)
    ensures ReadEvents(f, [first] + es + [last]) == ReadEvent(ReadEvents(Edge(f), es), last)
    ensures IsEdge(last) ==> ReadEvents(f, [first] + es + [last]) == Edge(ReadEvents(Edge(f), es))
  {
    ReadConcat(f, [first] + es, [last]);
    ReadConcat(f, [first], es);
    ReadOne(f, first);
    ReadOne(ReadEvents(Edge(f), es), last);
  }

  lemma EdgeTwice(f: Front)
    ensures Edge(Edge(f)) == Edge(f)
  {
  }

  lemma {:induction false} NodeReads(f: Front, n: Html, ctx: Context, num: Numbering)
    ensures ReadEvents(f, WalkNode(n, ctx, num).events) == ReadNode(f, n, ctx.pre, true)
    decreases Size(n), 0
  {
    hide WalkKids, WalkBlock, WalkList, WalkItem, WalkTable, WalkCells, ReadKids;
    match n {
      case Text(text) => ReadOne(f, TextNode(text, ctx.format, ctx.pre));
      case Comment =>
      case Element(tag, _, kids) =>
        var inside := Inside(ctx, n);
        match tag {
          case Skipped =>
          case LineBreakTag => ReadOne(f, LineBreak);
          case Image =>
          case RuleTag => ReadOne(f, RuleLine);
          case TableTag => TableReads(f, n, inside, num);
          case Unordered => ListReads(f, kids, inside, num, false, 1);
          case Ordered(start) => ListReads(f, kids, inside, num, true, Max(1, start));
          case Item => ItemReads(f, kids, inside, num);
          case BlockTag(pre) => BlockReads(f, kids, if pre then inside.(pre := true) else inside, num);
          case Caption => BlockReads(f, kids, inside, num);
          case _ => KidsRead(f, kids, inside, num);
        }
    }
  }

  lemma {:induction false} KidsRead(f: Front, kids: seq<Html>, ctx: Context, num: Numbering)
    ensures ReadEvents(f, WalkKids(kids, ctx, num).events) == ReadKids(f, kids, ctx.pre, true)
    decreases SizeAll(kids), 1
  {
    hide WalkNode, ReadNode;
    if kids != [] {
      var init, last := kids[..|kids| - 1], kids[|kids| - 1];
      KidsRead(f, init, ctx, num);
      var before := WalkKids(init, ctx, num);
      NodeReads(ReadKids(f, init, ctx.pre, true), last, ctx, before.numbering);
      ReadConcat(f, before.events, WalkNode(last, ctx, before.numbering).events);
    }
  }

  lemma {:induction false} BlockReads(f: Front, kids: seq<Html>, ctx: Context, num: Numbering)
    ensures ReadEvents(f, WalkBlock(kids, ctx, num).events) == Edge(ReadKids(Edge(f), kids, ctx.pre, true))
    decreases SizeAll(kids), 2
  {
    KidsRead(Edge(f), kids, ctx, num);
    ReadWrapped(f, Boundary, WalkKids(kids, ctx, num).events, Boundary);
  }

  lemma {:induction false} ListReads(f: Front, kids: seq<Html>, ctx: Context, num: Numbering, ordered: bool, start: nat)
    ensures ReadEvents(f, WalkList(kids, ctx, num, ordered, start).events) == Edge(ReadKids(Edge(f), Elements(kids), ctx.pre, true))
    decreases SizeAll(kids), 2
  {
    hide WalkKids, ReadEvents, ReadKids, Elements;
    var (id, numbered) := NewList(num, ordered, start);
    var inside := ctx.(level := Deeper(ctx.level), list := Some(id));
    KidsRead(Edge(f), Elements(kids), inside, numbered);
    ReadWrapped(f, ListBegin(id, ordered, start), WalkKids(Elements(kids), inside, numbered).events, ListEnd);
  }

  lemma {:induction false} ItemReads(f: Front, kids: seq<Html>, ctx: Context, num: Numbering)
    ensures ReadEvents(f, WalkItem(kids, ctx, num).events) == Edge(ReadKids(Edge(f), kids, ctx.pre, true))
    decreases SizeAll(kids), 2
  {
    hide WalkKids, ReadEvents, ReadKids;
    EdgeTwice(f);
    if ctx.list.Some? {
      KidsRead(Edge(f), kids, ctx, num);
      ReadWrapped(f, ItemBegin(Mark(ctx)), WalkKids(kids, ctx, num).events, ItemEnd);
    } else {
      var (id, numbered) := NewList(num, false, 1);
      var own := ctx.(level := 0, list := Some(id));
      KidsRead(Edge(f), kids, own, numbered);
      var inner := WalkKids(kids, own, numbered).events;
      ReadWrapped(Edge(f), ItemBegin(Mark(own)), inner, ItemEnd);
      ReadWrapped(f, ListBegin(id, false, 1), [ItemBegin(Mark(own))] + inner + [ItemEnd], ListEnd);
      EdgeTwice(ReadEvents(Edge(f), inner));
    }
  }

  lemma BoundaryRead(f: Front)
    ensures ReadEvents(f, [Boundary]) == Edge(f)
  {
    ReadOne(f, Boundary);
  }

  lemma TableRead(f: Front, captions: seq<Event>, height: nat, width: nat, cells: seq<CellEvents>)
    ensures ReadEvents(f, [Boundary] + captions + [TableBlock(height, width, cells)])
            == PutTable(ReadEvents(Edge(f), captions), ReadCells(cells))
  {
    ReadWrapped(f, Boundary, captions, TableBlock(height, width, cells));
  }

  lemma TableNode(f: Front, n: Html, pre: bool)
    requires Is(n, TableTag)
    ensures ReadNode(f, n, pre, true)
            == if Rows(n.kids) == [] then ReadKids(f, n.kids, pre, true)
               else if TableGrid.Width(TablePlaces(n.kids)) == 0 then Edge(f)
               else PutTable(ReadKids(Edge(f), Captions(n.kids), pre, true), CellsContent(Flat(Rows(n.kids)), pre, true))
  {
    hide Rows, Flat, Captions, TablePlaces, ReadKids, CellsContent, PutTable, Edge;
    assert n.tag.TableTag?;
  }

  lemma {:induction false} TableReads(f: Front, n: Html, ctx: Context, num: Numbering)
    requires Is(n, TableTag)
    ensures ReadEvents(f, WalkTable(n.kids, ctx, num).events) == ReadNode(f, n, ctx.pre, true)
    decreases SizeAll(n.kids), 2
  {
    var kids := n.kids;
    hide Rows, Flat, Captions, WalkKids, WalkCells, ReadNode, ReadKids, ReadEvents, CellsContent, TablePlaces, PutTable, Edge;
    hide ReadCells, ReadEvent, Spans, SizeAll;
    var places := TablePlaces(kids);
    TableNode(f, n, ctx.pre);
    if Rows(kids) == [] {
      KidsRead(f, kids, ctx, num);
    } else if TableGrid.Width(places) == 0 {
      BoundaryRead(f);
    } else {
      RowsSmaller(kids);
      OnePlaceEach(kids);
      var captions := WalkKids(Captions(kids), ctx, num);
      KidsRead(Edge(f), Captions(kids), ctx, num);
      var (cells, numbered) := WalkCells(Flat(Rows(kids)), places, ctx, captions.numbering);
      WalkCellsRead(Flat(Rows(kids)), places, ctx, captions.numbering);
      TableRead(f, captions.events, |Rows(kids)|, TableGrid.Width(places), cells);
    }
  }

  lemma {:induction false} WalkCellsRead(cells: seq<Html>, places: seq<Placement>, ctx: Context, num: Numbering)
    requires |cells| <= |places| && forall i | 0 <= i < |cells| :: IsCell(cells[i])
    ensures ReadCells(WalkCells(cells, places, ctx, num).0) == CellsContent(cells, ctx.pre, true)
    decreases SizeAll(cells), 1
  {
    hide WalkKids, ReadEvents, ReadCells, ReadKids;
    if cells == [] {
      NoCellsRead();
    } else {
      var k := |cells| - 1;
      assert IsCell(cells[k]);
      assert Size(cells[k]) == 1 + SizeAll(cells[k].kids);
      WalkCellsRead(cells[..k], places, ctx, num);
      var (before, numbered) := WalkCells(cells[..k], places, ctx, num);
      var inside := InsideCell(ctx, cells[k]);
      KidsRead(START, cells[k].kids, inside, numbered);
      ReadCellsSnoc(before, places[k], WalkKids(cells[k].kids, inside, numbered).events);
    }
  }

  lemma NoCellsRead()
    ensures ReadCells([]) == ""
  {
  }

  lemma ReadCellsSnoc(cells: seq<CellEvents>, place: Placement, es: seq<Event>)
    ensures ReadCells(cells + [CellEvents(place, es)]) == ReadCells(cells) + Moved(ReadEvents(START, es))
  {
    assert (cells + [CellEvents(place, es)])[..|cells|] == cells;
  }

  // ---- Unmoved, it is what is kept ----

  /** `g` is `f` with `more` read after it. */
  ghost predicate Grows(f: Front, g: Front, more: string) {
    Formed(g) && Whole(g) == Whole(f) + more
  }

  lemma EdgeGrows(f: Front)
    requires Formed(f)
    ensures Grows(f, Edge(f), "") && Formed(PutRule(f)) && Whole(PutRule(f)) == Whole(f)
  {
    assert Whole(f) + "" == Whole(f);
  }

  lemma PutGrows(f: Front, ink: string, opens: bool)
    requires Formed(f) && (!opens ==> ink == "")
    ensures Grows(f, Put(f, ink, opens), ink)
  {
    var g := Put(f, ink, opens);
    assert f.tables + f.first + f.rest + ink == f.tables + f.first + (f.rest + ink);
    assert f.tables + (f.first + ink) == f.tables + f.first + ink;
    match f.phase {
      case Ahead => assert g.rest == "" && Whole(f) == f.tables;
      case Under => assert g.rest == "" && Whole(f) == f.tables + f.first;
      case Past =>
    }
  }

  lemma TextOpens(raw: string, pre: bool)
    ensures !Opens(TextTokens(raw, pre)) ==> Ink(raw) == ""
  {
    TextTokensInk(raw, pre);
    if !Opens(TextTokens(raw, pre)) { BlankLineInk(TextTokens(raw, pre)); }
  }

  lemma TableGrows(f: Front, ink: string)
    requires Formed(f)
    ensures Grows(f, PutTable(f, ink), ink)
  {
    assert f.tables + f.first + f.rest + ink == f.tables + f.first + (f.rest + ink);
    if f.phase.Ahead? { assert Whole(f) == f.tables && Whole(PutTable(f, ink)) == f.tables + ink; }
  }

  lemma GrowsTwice(f: Front, g: Front, h: Front, a: string, b: string)
    requires Grows(f, g, a) && Grows(g, h, b)
    ensures Grows(f, h, a + b)
  {
    assert Whole(f) + a + b == Whole(f) + (a + b);
  }

  lemma GrowsInside(f: Front, g: Front, a: string)
    requires Formed(f) && Grows(Edge(f), g, a)
    ensures Grows(f, Edge(g), a) && Grows(f, g, a)
  {
    EdgeGrows(f);
    EdgeGrows(g);
    assert "" + a == a && a + "" == a;
    GrowsTwice(f, Edge(f), g, "", a);
    GrowsTwice(f, g, Edge(g), a, "");
  }

  lemma {:induction false} NodeGrows(f: Front, n: Html, pre: bool)
    requires Formed(f)
    ensures Grows(f, ReadNode(f, n, pre, false), Kept(n))
    decreases Size(n), 0
  {
    hide KeptAll, ReadKids, CellsContent, Put, PutTable, PutRule, Whole, Edge;
    EdgeGrows(f);
    match n {
      case Text(text) =>
        TextOpens(text, pre);
        PutGrows(f, Ink(text), Opens(TextTokens(text, pre)));
      case Comment =>
      case Element(tag, _, kids) =>
        assert Whole(f) + "" == Whole(f);
        if tag.Skipped? || tag.Image? {
        } else if tag.LineBreakTag? {
          PutGrows(f, "", true);
        } else if tag.RuleTag? {
        } else if tag.TableTag? && Rows(kids) != [] {
          RowsSmaller(kids);
          if TableGrid.Width(TablePlaces(kids)) != 0 { TableKept(f, kids, pre); }
        } else if tag.Unordered? || tag.Ordered? {
          KidsGrow(Edge(f), Elements(kids), pre);
          GrowsInside(f, ReadKids(Edge(f), Elements(kids), pre, false), KeptAll(Elements(kids)));
        } else if tag.Item? || tag.BlockTag? || tag.Caption? {
          KidsGrow(Edge(f), kids, PreInside(tag, pre));
          GrowsInside(f, ReadKids(Edge(f), kids, PreInside(tag, pre), false), KeptAll(kids));
        } else {
          KidsGrow(f, kids, pre);
        }
    }
  }

  lemma {:induction false} TableKept(f: Front, kids: seq<Html>, pre: bool)
    requires Formed(f)
    ensures Grows(f, PutTable(ReadKids(Edge(f), Captions(kids), pre, false), CellsContent(Flat(Rows(kids)), pre, false)),
                  KeptAll(Captions(kids)) + KeptAll(Flat(Rows(kids))))
    decreases SizeAll(kids), 2
  {
    hide *;
    EdgeGrows(f);
    FormedEdge(f);
    var captions := ReadKids(Edge(f), Captions(kids), pre, false);
    KidsGrow(Edge(f), Captions(kids), pre);
    GrowsInside(f, captions, KeptAll(Captions(kids)));
    FormedOnce(f, captions, KeptAll(Captions(kids)));
    RowsSmaller(kids);
    OnePlaceEach(kids);
    CellsKept(Flat(Rows(kids)), pre);
    TableGrows(captions, KeptAll(Flat(Rows(kids))));
    GrowsTwice(f, captions, PutTable(captions, KeptAll(Flat(Rows(kids)))), KeptAll(Captions(kids)), KeptAll(Flat(Rows(kids))));
  }

  lemma FormedEdge(f: Front)
    requires Formed(f)
    ensures Formed(Edge(f))
  {
  }

  lemma FormedOnce(f: Front, g: Front, a: string)
    requires Grows(f, g, a)
    ensures Formed(g)
  {
  }

  lemma {:induction false} KidsGrow(f: Front, kids: seq<Html>, pre: bool)
    requires Formed(f)
    ensures Grows(f, ReadKids(f, kids, pre, false), KeptAll(kids))
    decreases SizeAll(kids), 1
  {
    hide ReadNode, Kept;
    if kids == [] {
      assert Whole(f) + "" == Whole(f);
    } else {
      var init, last := kids[..|kids| - 1], kids[|kids| - 1];
      KidsGrow(f, init, pre);
      NodeGrows(ReadKids(f, init, pre, false), last, pre);
      GrowsTwice(f, ReadKids(f, init, pre, false), ReadKids(f, kids, pre, false), KeptAll(init), Kept(last));
    }
  }

  lemma StartIsFormed()
    ensures Formed(START) && Whole(START) == ""
  {
  }

  /** Of any children: what is kept, as it comes. */
  lemma {:induction false} KidsKept(kids: seq<Html>, pre: bool)
    ensures Whole(ReadKids(START, kids, pre, false)) == KeptAll(kids)
    decreases SizeAll(kids), 2
  {
    StartIsFormed();
    KidsGrow(START, kids, pre);
    assert "" + KeptAll(kids) == KeptAll(kids);
  }

  lemma {:induction false} CellsKept(cells: seq<Html>, pre: bool)
    requires AllCells(cells)
    ensures CellsContent(cells, pre, false) == KeptAll(cells)
    decreases SizeAll(cells), 1
  {
    hide ReadKids, Whole, Kept;
    if cells != [] {
      var k := |cells| - 1;
      assert IsCell(cells[k]);
      assert Size(cells[k]) == 1 + SizeAll(cells[k].kids);
      CellsKept(cells[..k], pre);
      KidsKept(cells[k].kids, pre);
      CellIsItsKids(cells[k]);
    }
  }

  lemma CellIsItsKids(cell: Html)
    requires IsCell(cell)
    ensures Kept(cell) == KeptAll(cell.kids)
  {
  }

  // ---- Where the order is that of the tree ----

  /** Each cell reached keeps its order: it has no content in its first paragraph, or no tables with
      content ahead of it; or else the two change places unseen. */
  ghost predicate InOrder(n: Html, pre: bool)
    decreases Size(n), 0
  {
    n.Element? ==>
      if n.tag.Skipped? || n.tag.LineBreakTag? || n.tag.Image? || n.tag.RuleTag? then true
      else if n.tag.TableTag? && Rows(n.kids) != [] then
        RowsSmaller(n.kids);
        TableGrid.Width(TablePlaces(n.kids)) != 0 ==>
          AllInOrder(Captions(n.kids), pre) && CellsInOrder(Flat(Rows(n.kids)), pre)
      else if n.tag.Unordered? || n.tag.Ordered? then AllInOrder(Elements(n.kids), pre)
      else AllInOrder(n.kids, PreInside(n.tag, pre))
  }

  ghost predicate AllInOrder(kids: seq<Html>, pre: bool)
    decreases SizeAll(kids), 1
  {
    kids != [] ==> AllInOrder(kids[..|kids| - 1], pre) && InOrder(kids[|kids| - 1], pre)
  }

  ghost predicate CellsInOrder(cells: seq<Html>, pre: bool)
    decreases SizeAll(cells), 1
  {
    cells != [] ==>
      var cell := cells[|cells| - 1];
      && CellsInOrder(cells[..|cells| - 1], pre)
      && (cell.Element? ==> assert Size(cell) == 1 + SizeAll(cell.kids); CellInOrder(cell.kids, pre))
  }

  ghost predicate CellInOrder(kids: seq<Html>, pre: bool)
    decreases SizeAll(kids), 2
  {
    var shown, kept := ReadKids(START, kids, pre, true), ReadKids(START, kids, pre, false);
    if shown.first == "" || shown.tables == "" then AllInOrder(kids, pre)
    else shown.first + shown.tables == kept.tables + kept.first && shown.rest == kept.rest
  }

  /** Moved and unmoved, a reading differs only in the order within its parts. */
  ghost predicate Twins(f: Front, g: Front) {
    && Formed(f) && Formed(g) && f.phase == g.phase && f.first == g.first
    && multiset(f.tables) == multiset(g.tables) && multiset(f.rest) == multiset(g.rest)
  }

  lemma SameSize(a: string, b: string)
    requires multiset(a) == multiset(b)
    ensures |a| == |b|
  {
    assert |multiset(a)| == |a| && |multiset(b)| == |b|;
  }

  lemma EqualConcat(a: string, b: string, c: string, d: string)
    requires |a| == |c|
    ensures a + b == c + d <==> a == c && b == d
  {
    assert (a + b)[..|a|] == a && (c + d)[..|c|] == c && (a + b)[|a|..] == b && (c + d)[|c|..] == d;
  }

  lemma MoreOfBoth(a: string, b: string, c: string, d: string)
    requires multiset(a) == multiset(c) && multiset(b) == multiset(d)
    ensures multiset(a + b) == multiset(c + d) && (a + b == c + d <==> a == c && b == d)
  {
    SameSize(a, c);
    EqualConcat(a, b, c, d);
    assert multiset(a + b) == multiset(a) + multiset(b) && multiset(c + d) == multiset(c) + multiset(d);
  }

  lemma PutTwins(f: Front, g: Front, ink: string, opens: bool)
    requires Twins(f, g)
    ensures Twins(Put(f, ink, opens), Put(g, ink, opens)) && (Put(f, ink, opens) == Put(g, ink, opens) <==> f == g)
    ensures Twins(Edge(f), Edge(g)) && (Edge(f) == Edge(g) <==> f == g)
    ensures Twins(PutRule(f), PutRule(g)) && (PutRule(f) == PutRule(g) <==> f == g)
  {
    MoreOfBoth(f.rest, ink, g.rest, ink);
  }

  lemma TableTwins(f: Front, g: Front, a: string, b: string)
    requires Twins(f, g) && multiset(a) == multiset(b)
    ensures Twins(PutTable(f, a), PutTable(g, b)) && (PutTable(f, a) == PutTable(g, b) <==> f == g && a == b)
  {
    MoreOfBoth(f.tables, a, g.tables, b);
    MoreOfBoth(f.rest, a, g.rest, b);
  }

  lemma {:induction false} NodeOrder(f: Front, g: Front, n: Html, pre: bool)
    requires Twins(f, g)
    ensures Twins(ReadNode(f, n, pre, true), ReadNode(g, n, pre, false))
    ensures ReadNode(f, n, pre, true) == ReadNode(g, n, pre, false) <==> f == g && InOrder(n, pre)
    decreases Size(n), 0
  {
    hide ReadKids, CellsContent, AllInOrder, CellsInOrder, Put, PutTable, PutRule, Edge, Twins;
    match n {
      case Text(text) => PutTwins(f, g, Ink(text), Opens(TextTokens(text, pre)));
      case Comment =>
      case Element(tag, _, kids) =>
        PutTwins(f, g, "", true);
        if tag.Skipped? || tag.Image? || tag.LineBreakTag? || tag.RuleTag? {
        } else if tag.TableTag? && Rows(kids) != [] {
          RowsSmaller(kids);
          if TableGrid.Width(TablePlaces(kids)) != 0 { TableOrder(f, g, kids, pre); }
        } else if tag.Unordered? || tag.Ordered? {
          BlockOrder(f, g, Elements(kids), pre);
        } else if tag.Item? || tag.BlockTag? || tag.Caption? {
          BlockOrder(f, g, kids, PreInside(tag, pre));
        } else {
          KidsOrder(f, g, kids, pre);
        }
    }
  }

  lemma {:induction false} BlockOrder(f: Front, g: Front, kids: seq<Html>, pre: bool)
    requires Twins(f, g)
    ensures var x, y := Edge(ReadKids(Edge(f), kids, pre, true)), Edge(ReadKids(Edge(g), kids, pre, false));
            Twins(x, y) && (x == y <==> f == g && AllInOrder(kids, pre))
    decreases SizeAll(kids), 2
  {
    hide *;
    PutTwins(f, g, "", true);
    KidsOrder(Edge(f), Edge(g), kids, pre);
    PutTwins(ReadKids(Edge(f), kids, pre, true), ReadKids(Edge(g), kids, pre, false), "", true);
  }

  lemma {:induction false} TableOrder(f: Front, g: Front, kids: seq<Html>, pre: bool)
    requires Twins(f, g)
    ensures var x := PutTable(ReadKids(Edge(f), Captions(kids), pre, true), CellsContent(Flat(Rows(kids)), pre, true));
            var y := PutTable(ReadKids(Edge(g), Captions(kids), pre, false), CellsContent(Flat(Rows(kids)), pre, false));
            Twins(x, y) && (x == y <==> f == g && AllInOrder(Captions(kids), pre) && CellsInOrder(Flat(Rows(kids)), pre))
    decreases SizeAll(kids), 2
  {
    hide *;
    RowsSmaller(kids);
    PutTwins(f, g, "", true);
    KidsOrder(Edge(f), Edge(g), Captions(kids), pre);
    CellsOrder(Flat(Rows(kids)), pre);
    TableTwins(ReadKids(Edge(f), Captions(kids), pre, true), ReadKids(Edge(g), Captions(kids), pre, false),
               CellsContent(Flat(Rows(kids)), pre, true), CellsContent(Flat(Rows(kids)), pre, false));
  }

  lemma {:induction false} KidsOrder(f: Front, g: Front, kids: seq<Html>, pre: bool)
    requires Twins(f, g)
    ensures Twins(ReadKids(f, kids, pre, true), ReadKids(g, kids, pre, false))
    ensures ReadKids(f, kids, pre, true) == ReadKids(g, kids, pre, false) <==> f == g && AllInOrder(kids, pre)
    decreases SizeAll(kids), 1
  {
    hide ReadNode, InOrder, Twins;
    if kids != [] {
      var init, last := kids[..|kids| - 1], kids[|kids| - 1];
      KidsOrder(f, g, init, pre);
      NodeOrder(ReadKids(f, init, pre, true), ReadKids(g, init, pre, false), last, pre);
    }
  }

  lemma {:induction false} CellsOrder(cells: seq<Html>, pre: bool)
    ensures multiset(CellsContent(cells, pre, true)) == multiset(CellsContent(cells, pre, false))
    ensures CellsContent(cells, pre, true) == CellsContent(cells, pre, false) <==> CellsInOrder(cells, pre)
    decreases SizeAll(cells), 1
  {
    hide ReadKids, CellInOrder, Moved, Whole;
    if cells != [] {
      var init, cell := cells[..|cells| - 1], cells[|cells| - 1];
      CellsOrder(init, pre);
      if cell.Element? {
        assert Size(cell) == 1 + SizeAll(cell.kids);
        CellOrder(cell.kids, pre);
        MoreOfBoth(CellsContent(init, pre, true), Moved(ReadKids(START, cell.kids, pre, true)),
                   CellsContent(init, pre, false), Whole(ReadKids(START, cell.kids, pre, false)));
      } else {
        MoreOfBoth(CellsContent(init, pre, true), "", CellsContent(init, pre, false), "");
      }
    }
  }

  lemma {:induction false} CellOrder(kids: seq<Html>, pre: bool)
    ensures var shown, kept := ReadKids(START, kids, pre, true), ReadKids(START, kids, pre, false);
            && multiset(Moved(shown)) == multiset(Whole(kept)) == multiset(Whole(shown))
            && (Moved(shown) == Whole(kept) <==> CellInOrder(kids, pre))
            && (Whole(shown) == Whole(kept) <==> AllInOrder(kids, pre))
    decreases SizeAll(kids), 2
  {
    hide ReadKids, AllInOrder;
    StartTwins();
    KidsOrder(START, START, kids, pre);
    TwinContents(ReadKids(START, kids, pre, true), ReadKids(START, kids, pre, false));
  }

  lemma StartTwins()
    ensures Twins(START, START)
  {
  }

  lemma TwinContents(shown: Front, kept: Front)
    requires Twins(shown, kept)
    ensures multiset(Moved(shown)) == multiset(Whole(kept)) == multiset(Whole(shown))
    ensures Whole(shown) == Whole(kept) <==> shown == kept
    ensures Moved(shown) == Whole(kept)
            <==> if shown.first == "" || shown.tables == "" then shown == kept
                 else shown.first + shown.tables == kept.tables + kept.first && shown.rest == kept.rest
  {
    SameSize(shown.tables, kept.tables);
    assert multiset(shown.first + shown.tables) == multiset(shown.first) + multiset(shown.tables)
           == multiset(kept.tables + kept.first) == multiset(shown.tables + shown.first);
    MoreOfBoth(shown.first + shown.tables, shown.rest, kept.tables + kept.first, kept.rest);
    MoreOfBoth(shown.tables, shown.first, kept.tables, kept.first);
    MoreOfBoth(shown.tables + shown.first, shown.rest, kept.tables + kept.first, kept.rest);
    assert shown.first == "" ==> shown.first + shown.tables == shown.tables && kept.tables + kept.first == kept.tables;
    assert shown.tables == "" ==> shown.first + shown.tables == shown.first && kept.tables + kept.first == kept.first;
  }

  /** The paragraph and the tables ahead of it change places unseen only where they begin alike. */
  lemma MoveIsSeen(kids: seq<Html>, pre: bool)
    requires var shown, kept := ReadKids(START, kids, pre, true), ReadKids(START, kids, pre, false);
             shown.first != "" && shown.tables != "" && kept.tables != "" && shown.first[0] != kept.tables[0]
    ensures !CellInOrder(kids, pre)
  {
    var shown, kept := ReadKids(START, kids, pre, true), ReadKids(START, kids, pre, false);
    assert (shown.first + shown.tables)[0] == shown.first[0] && (kept.tables + kept.first)[0] == kept.tables[0];
  }

  // ---- The document ----

  const NO_LISTS := Numbering([], None)

  /** The text blocks of the document made from a body's children. */
  function DocumentOf(kids: seq<Html>): seq<TextBlock> {
    Texts(Play(PAGE, WalkKids(kids, TOP, NO_LISTS).events).blocks)
  }

  /** The document has the content shown, in that order: for every tree. */
  lemma ContentIsShown(kids: seq<Html>)
    ensures BlocksInk(DocumentOf(kids)) == Shown(kids)
  {
    var es := WalkKids(kids, TOP, NO_LISTS).events;
    PageText(es);
    PageRead(es);
    KidsRead(START, kids, TOP, NO_LISTS);
  }

  /** Whatever the tree: the document's characters are those kept, each once, and those kept and
      those lost are the tree's. */
  lemma EveryCharacterOnce(kids: seq<Html>)
    ensures multiset(BlocksInk(DocumentOf(kids))) == multiset(KeptAll(kids))
    ensures multiset(KeptAll(kids)) + multiset(LostAll(kids)) == multiset(KidsInk(kids))
  {
    ContentIsShown(kids);
    CellOrder(kids, false);
    KidsKept(kids, false);
    KidsAccount(kids);
  }

  /** The document has what is kept in document order exactly when every cell reached keeps its
      order. */
  lemma OrderIsKept(kids: seq<Html>)
    ensures BlocksInk(DocumentOf(kids)) == KeptAll(kids) <==> AllInOrder(kids, false)
  {
    ContentIsShown(kids);
    CellOrder(kids, false);
    KidsKept(kids, false);
  }

  /** And it has the tree's content as it stands there exactly when, besides, no content stands
      where the walk does not look. */
  lemma ContentIsKeptExactlyWhen(kids: seq<Html>)
    ensures BlocksInk(DocumentOf(kids)) == KidsInk(kids) <==> LostAll(kids) == "" && AllInOrder(kids, false)
  {
    hide DocumentOf, BlocksInk, KeptAll, KidsInk, LostAll, AllInOrder;
    EveryCharacterOnce(kids);
    OrderIsKept(kids);
    KidsAccount(kids);
    AccountsExactly(KeptAll(kids), KidsInk(kids), LostAll(kids));
    SameSize(BlocksInk(DocumentOf(kids)), KeptAll(kids));
    LostIsMissing(KeptAll(kids), KidsInk(kids), LostAll(kids));
  }

  lemma LostIsMissing(part: string, whole: string, lost: string)
    requires Accounts(part, whole, lost)
    ensures |part| + |lost| == |whole|
  {
    assert |multiset(part)| == |part| && |multiset(whole)| == |whole| && |multiset(lost)| == |lost|;
  }

  lemma TableFirstOrder(table: Event, text: Event, t: TextBlock, p: TextBlock)
    requires PageBlocks([table, text]) == [t, p] && t.TextTable? && p.TextParagraph?
    ensures CellBlocks([table, text]) == PaddedText([p, t])
  {
    hide PageBlocks, PaddedText;
    assert [t, p][..1] == [t] && [t][..0] == [];
    assert FirstText([t]) == 1;
    assert InCellOrder([t, p]) == [p, t];
  }

  /** Why cells with tables are another matter: a table at the start of a cell changes places
      with the text after it. */
  lemma TableFirstInCell(height: nat, width: nat, cells: seq<CellEvents>, raw: string, format: Format)
    requires Ink(raw) != ""
    ensures BlocksInk(CellBlocks([TableBlock(height, width, cells), TextNode(raw, format, false)]))
            == Ink(raw) + TextCellsInk(CollectCells(cells))
  {
    var table, text := TableBlock(height, width, cells), TextNode(raw, format, false);
    var t := TextTable(height, width, CollectCells(cells));
    var p := TextParagraph(ParagraphText(Chars(raw)), None);
    TableThenText(height, width, cells, raw, format);
    TableFirstOrder(table, text, t, p);
    InkOfBoth(raw, t, p);
    PaddedInk([p, t]);
  }

  lemma InkOfBoth(raw: string, t: TextBlock, p: TextBlock)
    requires t.TextTable? && p == TextParagraph(ParagraphText(Chars(raw)), None)
    ensures BlocksInk([p, t]) == Ink(raw) + TextCellsInk(t.cells)
  {
    hide Chars, ParagraphText;
    CharsInk(raw);
    ParagraphInk(Chars(raw));
    assert [p, t] == [p] + [t];
    BlocksInkConcat([p], [t]);
    BlocksInkOne(p);
    BlocksInkOne(t);
  }

  lemma TableThenText(height: nat, width: nat, cells: seq<CellEvents>, raw: string, format: Format)
    requires Ink(raw) != ""
    ensures PageBlocks([TableBlock(height, width, cells), TextNode(raw, format, false)])
            == [TextTable(height, width, CollectCells(cells)), TextParagraph(ParagraphText(Chars(raw)), None)]
  {
    hide Chars, ParagraphText, CollectCells, TokenInk, Ink, FirstText;
    var table, text := TableBlock(height, width, cells), TextNode(raw, format, false);
    var t := TextTable(height, width, CollectCells(cells));
    assert [table, text][..1] == [table] && [table][..0] == [];
    assert !Opens([]);
    assert Collect(NOTHING, [table]) == Gathered([t], [], None);
    assert [] + Chars(raw) == Chars(raw);
    assert Collect(NOTHING, [table, text]) == Gathered([t], Chars(raw), None);
    CharsInk(raw);
    if !Opens(Chars(raw)) { BlankLineInk(Chars(raw)); }
  }
}
