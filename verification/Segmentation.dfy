/** The document's text does not depend on how inline tags cut it up.

    `Atoms` forgets formats and the ends of text nodes: what is left are the characters, the
    breaks and the boundaries of blocks. Two walks with the same atoms give the same blocks,
    and taking an inline element's tag away among children walked one by one, or giving an
    element other formats, leaves the atoms as they were; `PlainTree` carries this to whole
    documents. Preformatted text is the exception, because the source strips line breaks off
    each text node: `PreformattedCutExactly` says when a cut keeps it. */
module Segmentation {
  import opened Options
  import opened Whitespace
  import opened Document
  import opened DocumentText
  import opened HtmlWalk
  import TableGrid

  datatype Atom =
    | Piece(token: Token)
    | Cut
    | RuleCut
    | Begin(mark: ItemMark)
    | End
    | Grid(height: nat, width: nat, cells: seq<CellAtoms>)

  datatype CellAtoms = CellAtoms(place: Placement, atoms: seq<Atom>)

  function Pieces(ts: seq<Token>): (out: seq<Atom>)
    ensures |out| == |ts| && forall i | 0 <= i < |ts| :: out[i] == Piece(ts[i])
  {
    if ts == [] then [] else Pieces(ts[..|ts| - 1]) + [Piece(ts[|ts| - 1])]
  }

  /** Preformatted text, a character at a time. */
  function Letters(s: string): seq<Token> {
    if s == "" then [] else Letters(s[..|s| - 1]) + [Verbatim([s[|s| - 1]])]
  }

  function SplitOne(t: Token): seq<Token> {
    if t.Verbatim? && t.text != "" then Letters(t.text) else [t]
  }

  function Split(ts: seq<Token>): seq<Token> {
    if ts == [] then [] else Split(ts[..|ts| - 1]) + SplitOne(ts[|ts| - 1])
  }

  function AtomsOf(e: Event): seq<Atom>
    decreases e, 1
  {
    match e
    case TextNode(raw, _, preformatted) => Pieces(Split(TextTokens(raw, preformatted)))
    case LineBreak => [Piece(Br)]
    case Boundary => [Cut]
    case RuleLine => [RuleCut]
    case ListBegin(_, _, _) => [Cut]
    case ListEnd => [Cut]
    case ItemBegin(mark) => [Begin(mark)]
    case ItemEnd => [End]
    case TableBlock(height, width, cells) => [Grid(height, width, AtomsOfCells(cells))]
  }

  function Atoms(es: seq<Event>): seq<Atom>
    decreases es, 0
  {
    if es == [] then [] else Atoms(es[..|es| - 1]) + AtomsOf(es[|es| - 1])
  }

  function AtomsOfCells(cells: seq<CellEvents>): seq<CellAtoms>
    decreases cells, 0
  {
    if cells == [] then []
    else AtomsOfCells(cells[..|cells| - 1]) + [CellAtoms(cells[|cells| - 1].place, Atoms(cells[|cells| - 1].events))]
  }

  // ---- Gathering atoms ----

  function Gather(g: Gathered, a: Atom): Gathered
    decreases a, 1
  {
    match a
    case Piece(t) => g.(line := g.line + [t])
    case Cut => Finish(g)
    case RuleCut => var f := Finish(g); f.(done := f.done + [TextRule])
    case Begin(mark) => Finish(g).(mark := Some(mark))
    case End => Finish(g).(mark := None)
    case Grid(height, width, cells) =>
      var f := Finish(g); f.(done := f.done + [TextTable(height, width, GatherCells(cells))])
  }

  function GatherAll(g: Gathered, atoms: seq<Atom>): Gathered
    decreases atoms, 0
  {
    if atoms == [] then g else Gather(GatherAll(g, atoms[..|atoms| - 1]), atoms[|atoms| - 1])
  }

  function GatherCells(cells: seq<CellAtoms>): seq<TextCell>
    decreases cells, 0
  {
    if cells == [] then []
    else
      var cell := cells[|cells| - 1];
      GatherCells(cells[..|cells| - 1]) + [TextCell(cell.place, PaddedText(InCellOrder(Finish(GatherAll(NOTHING, cell.atoms)).done)))]
  }

  lemma {:induction false} GatherConcat(g: Gathered, a: seq<Atom>, b: seq<Atom>)
    ensures GatherAll(g, a + b) == GatherAll(GatherAll(g, a), b)
  {
    hide Gather;
    if b == [] {
      assert a + b == a;
    } else {
      GatherConcat(g, a, b[..|b| - 1]);
      assert (a + b)[..|a + b| - 1] == a + b[..|b| - 1];
    }
  }

  lemma GatherOne(g: Gathered, a: Atom)
    ensures GatherAll(g, [a]) == Gather(g, a)
  {
    assert [a][..0] == [];
  }

  lemma {:induction false} GatherPieces(g: Gathered, ts: seq<Token>)
    ensures GatherAll(g, Pieces(ts)) == g.(line := g.line + ts)
  {
    if ts == [] {
      assert g.line + [] == g.line;
    } else {
      var n := |ts| - 1;
      GatherPieces(g, ts[..n]);
      assert Pieces(ts)[..n] == Pieces(ts[..n]);
      assert g.line + ts[..n] + [ts[n]] == g.line + ts;
    }
  }

  // ---- Splitting does not matter ----

  lemma {:induction false} SplitConcat(a: seq<Token>, b: seq<Token>)
    ensures Split(a + b) == Split(a) + Split(b)
  {
    hide SplitOne;
    if b == [] {
      assert a + b == a;
    } else {
      SplitConcat(a, b[..|b| - 1]);
      assert (a + b)[..|a + b| - 1] == a + b[..|b| - 1];
      assert Split(a) + Split(b[..|b| - 1]) + SplitOne(b[|b| - 1]) == Split(a) + (Split(b[..|b| - 1]) + SplitOne(b[|b| - 1]));
    }
  }

  lemma SplitSingle(t: Token)
    ensures Split([t]) == SplitOne(t)
  {
    assert [t][..0] == [];
    assert [] + SplitOne(t) == SplitOne(t);
  }

  lemma {:induction false} LettersConcat(a: string, b: string)
    ensures Letters(a + b) == Letters(a) + Letters(b)
  {
    if b == "" {
      assert a + b == a;
    } else {
      LettersConcat(a, b[..|b| - 1]);
      assert (a + b)[..|a + b| - 1] == a + b[..|b| - 1];
    }
  }

  lemma {:induction false} LettersRun(l: Line, s: string)
    requires s != ""
    ensures Run(l, Letters(s)) == TokenStep(l, Verbatim(s))
    ensures Letters(s) != [] && forall i | 0 <= i < |Letters(s)| :: OpensOn(Letters(s)[i])
  {
    var init, last := s[..|s| - 1], [s[|s| - 1]];
    RunSnoc(l, Letters(init), Verbatim(last));
    assert s == init + last;
    if init == "" {
      assert Run(l, []) == l && s == last;
    } else {
      LettersRun(l, init);
      assert Breaks(0) == "";
      assert l.out + Breaks(l.breaks) + init + "" + last == l.out + Breaks(l.breaks) + s;
    }
  }

  lemma SplitOneRun(l: Line, t: Token)
    ensures Run(l, SplitOne(t)) == TokenStep(l, t)
    ensures Opens(SplitOne(t)) <==> OpensOn(t)
  {
    if t.Verbatim? && t.text != "" {
      LettersRun(l, t.text);
      assert OpensOn(Letters(t.text)[0]);
    } else {
      assert [t][..0] == [] && [t][0] == t;
    }
  }

  lemma {:induction false} SplitRun(ts: seq<Token>)
    ensures Run(EMPTY_LINE, Split(ts)) == Run(EMPTY_LINE, ts)
    ensures Opens(Split(ts)) <==> Opens(ts)
  {
    hide SplitOne, TokenStep, OpensOn;
    if ts != [] {
      var init, last := ts[..|ts| - 1], ts[|ts| - 1];
      SplitRun(init);
      RunConcat(EMPTY_LINE, Split(init), SplitOne(last));
      SplitOneRun(Run(EMPTY_LINE, init), last);
      OpensConcat(Split(init), SplitOne(last));
      OpensSnoc(init, last);
      assert ts == init + [last];
    }
  }

  /** What was gathered, its line split. */
  function Splitted(g: Gathered): Gathered {
    g.(line := Split(g.line))
  }

  lemma FinishSplits(g: Gathered)
    ensures Finish(Splitted(g)) == Finish(g) == Splitted(Finish(g))
  {
    SplitRun(g.line);
    ParagraphTextIsRun(g.line);
    ParagraphTextIsRun(Split(g.line));
    hide ParagraphText, Opens, Run;
  }

  lemma TextIsGather(g: Gathered, raw: string, format: Format, preformatted: bool)
    ensures Splitted(CollectOne(g, TextNode(raw, format, preformatted)))
            == GatherAll(Splitted(g), AtomsOf(TextNode(raw, format, preformatted)))
  {
    hide GatherAll, TextTokens, Finish, Pieces, Split;
    SplitConcat(g.line, TextTokens(raw, preformatted));
    GatherPieces(Splitted(g), Split(TextTokens(raw, preformatted)));
  }

  lemma BreakIsGather(g: Gathered)
    ensures Splitted(g.(line := g.line + [Br])) == Gather(Splitted(g), Piece(Br))
  {
    hide Split;
    SplitConcat(g.line, [Br]);
    SplitSingle(Br);
  }

  /** The other events but tables are one atom each. */
  lemma OneAtom(g: Gathered, e: Event)
    requires !e.TextNode? && !e.TableBlock?
    ensures |AtomsOf(e)| == 1 && Splitted(CollectOne(g, e)) == Gather(Splitted(g), AtomsOf(e)[0])
  {
    hide Finish, Split;
    FinishSplits(g);
    BreakIsGather(g);
  }

  lemma TableIsGather(g: Gathered, height: nat, width: nat, cells: seq<CellEvents>)
    requires CollectCells(cells) == GatherCells(AtomsOfCells(cells))
    ensures Splitted(CollectOne(g, TableBlock(height, width, cells)))
            == GatherAll(Splitted(g), AtomsOf(TableBlock(height, width, cells)))
  {
    hide GatherAll, GatherCells, CollectCells, AtomsOfCells, Finish, Split;
    FinishSplits(g);
    GatherOne(Splitted(g), Grid(height, width, AtomsOfCells(cells)));
  }

  lemma {:induction false} CollectOneIsGather(g: Gathered, e: Event)
    ensures Splitted(CollectOne(g, e)) == GatherAll(Splitted(g), AtomsOf(e))
    decreases e, 1
  {
    hide *;
    match e {
      case TextNode(raw, format, preformatted) => TextIsGather(g, raw, format, preformatted);
      case TableBlock(height, width, cells) =>
        CollectCellsIsGather(cells);
        TableIsGather(g, height, width, cells);
      case _ =>
        OneAtom(g, e);
        GatherOne(Splitted(g), AtomsOf(e)[0]);
        assert AtomsOf(e) == [AtomsOf(e)[0]];
    }
  }

  lemma {:induction false} CollectIsGather(es: seq<Event>)
    ensures Splitted(Collect(NOTHING, es)) == GatherAll(NOTHING, Atoms(es))
    decreases es, 0
  {
    hide CollectOne, AtomsOf;
    if es != [] {
      var n := |es| - 1;
      CollectIsGather(es[..n]);
      CollectOneIsGather(Collect(NOTHING, es[..n]), es[n]);
      GatherConcat(NOTHING, Atoms(es[..n]), AtomsOf(es[n]));
    }
  }

  lemma PageIsGather(es: seq<Event>)
    ensures PageBlocks(es) == Finish(GatherAll(NOTHING, Atoms(es))).done
    decreases es, 1
  {
    hide Finish, Collect, GatherAll, Atoms;
    CollectIsGather(es);
    FinishSplits(Collect(NOTHING, es));
  }

  lemma {:induction false} CollectCellsIsGather(cells: seq<CellEvents>)
    ensures CollectCells(cells) == GatherCells(AtomsOfCells(cells))
    decreases cells, 0
  {
    if cells != [] {
      var init, cell := cells[..|cells| - 1], cells[|cells| - 1];
      CollectCellsIsGather(init);
      PageIsGather(cell.events);
      GatherCellsSnoc(AtomsOfCells(init), CellAtoms(cell.place, Atoms(cell.events)));
      assert CollectCells(cells) == CollectCells(init) + [TextCell(cell.place, CellBlocks(cell.events))];
      assert AtomsOfCells(cells) == AtomsOfCells(init) + [CellAtoms(cell.place, Atoms(cell.events))];
      hide Finish, PageBlocks, GatherAll, Atoms, InCellOrder, PaddedText, GatherCells, CollectCells, AtomsOfCells;
    }
  }

  lemma GatherCellsSnoc(cells: seq<CellAtoms>, cell: CellAtoms)
    ensures GatherCells(cells + [cell]) ==
            GatherCells(cells) + [TextCell(cell.place, PaddedText(InCellOrder(Finish(GatherAll(NOTHING, cell.atoms)).done)))]
  {
    hide Finish, GatherAll, InCellOrder, PaddedText;
    assert (cells + [cell])[..|cells|] == cells;
  }

  /** Only the characters, the breaks and the boundaries matter. */
  lemma SameAtomsSameText(a: seq<Event>, b: seq<Event>)
    requires Atoms(a) == Atoms(b)
    ensures PageBlocks(a) == PageBlocks(b) && CellBlocks(a) == CellBlocks(b)
  {
    hide PageBlocks, GatherAll, Finish;
    PageIsGather(a);
    PageIsGather(b);
  }

  // ---- Formats do not matter ----

  /** Two contexts that differ in format and depth only. */
  ghost predicate Alike(a: Context, b: Context) {
    a.pre == b.pre && a.level == b.level && a.list == b.list
  }

  ghost predicate SameWalk(a: Walked, b: Walked) {
    Atoms(a.events) == Atoms(b.events) && a.numbering == b.numbering
  }

  lemma {:induction false} AtomsConcat(a: seq<Event>, b: seq<Event>)
    ensures Atoms(a + b) == Atoms(a) + Atoms(b)
  {
    hide AtomsOf;
    if b == [] {
      assert a + b == a;
    } else {
      AtomsConcat(a, b[..|b| - 1]);
      assert (a + b)[..|a + b| - 1] == a + b[..|b| - 1];
    }
  }

  lemma AtomsOne(e: Event)
    ensures Atoms([e]) == AtomsOf(e)
  {
    assert [e][..0] == [];
  }

  lemma SameWrapped(first: Event, a: seq<Event>, b: seq<Event>, last: Event, last': Event)
    requires Atoms(a) == Atoms(b) && AtomsOf(last) == AtomsOf(last')
    ensures Atoms([first] + a + [last]) == Atoms([first] + b + [last'])
  {
    hide Atoms, AtomsOf;
    AtomsConcat([first] + a, [last]);
    AtomsConcat([first], a);
    AtomsConcat([first] + b, [last']);
    AtomsConcat([first], b);
    AtomsOne(last);
    AtomsOne(last');
  }

  lemma {:induction false} NodeAlike(n: Html, p: Context, q: Context, num: Numbering)
    requires Alike(p, q)
    ensures SameWalk(WalkNode(n, p, num), WalkNode(n, q, num))
    decreases Size(n), 0
  {
    hide WalkKids, WalkBlock, WalkList, WalkItem, WalkTable, WalkCells;
    match n {
      case Text(text) =>
        AtomsOne(TextNode(text, p.format, p.pre));
        AtomsOne(TextNode(text, q.format, q.pre));
      case Comment =>
      case Element(tag, _, kids) =>
        var a, b := Inside(p, n), Inside(q, n);
        match tag {
          case Skipped =>
          case LineBreakTag =>
          case Image =>
          case RuleTag =>
          case TableTag => TableAlike(kids, a, b, num);
          case Unordered => ListAlike(kids, a, b, num, false, 1);
          case Ordered(start) => ListAlike(kids, a, b, num, true, Max(1, start));
          case Item => ItemAlike(kids, a, b, num);
          case BlockTag(pre) =>
            BlockAlike(kids, if pre then a.(pre := true) else a, if pre then b.(pre := true) else b, num);
          case Caption => BlockAlike(kids, a, b, num);
          case _ => KidsAlike(kids, a, b, num);
        }
    }
  }

  /** A walk from another format sends the same characters, breaks and boundaries. */
  lemma {:induction false} KidsAlike(kids: seq<Html>, p: Context, q: Context, num: Numbering)
    requires Alike(p, q)
    ensures SameWalk(WalkKids(kids, p, num), WalkKids(kids, q, num))
    decreases SizeAll(kids), 1
  {
    hide WalkNode, Atoms;
    if kids != [] {
      var k := |kids| - 1;
      KidsAlike(kids[..k], p, q, num);
      var a, b := WalkKids(kids[..k], p, num), WalkKids(kids[..k], q, num);
      NodeAlike(kids[k], p, q, a.numbering);
      AtomsConcat(a.events, WalkNode(kids[k], p, a.numbering).events);
      AtomsConcat(b.events, WalkNode(kids[k], q, b.numbering).events);
    }
  }

  lemma {:induction false} BlockAlike(kids: seq<Html>, p: Context, q: Context, num: Numbering)
    requires Alike(p, q)
    ensures SameWalk(WalkBlock(kids, p, num), WalkBlock(kids, q, num))
    decreases SizeAll(kids), 2
  {
    KidsAlike(kids, p, q, num);
    SameWrapped(Boundary, WalkKids(kids, p, num).events, WalkKids(kids, q, num).events, Boundary, Boundary);
  }

  lemma {:induction false} ListAlike(kids: seq<Html>, p: Context, q: Context, num: Numbering, ordered: bool, start: nat)
    requires Alike(p, q)
    ensures SameWalk(WalkList(kids, p, num, ordered, start), WalkList(kids, q, num, ordered, start))
    decreases SizeAll(kids), 2
  {
    var (id, numbered) := NewList(num, ordered, start);
    var a := p.(level := Deeper(p.level), list := Some(id));
    var b := q.(level := Deeper(q.level), list := Some(id));
    KidsAlike(Elements(kids), a, b, numbered);
    SameWrapped(ListBegin(id, ordered, start), WalkKids(Elements(kids), a, numbered).events,
                WalkKids(Elements(kids), b, numbered).events, ListEnd, ListEnd);
  }

  lemma {:induction false} ItemAlike(kids: seq<Html>, p: Context, q: Context, num: Numbering)
    requires Alike(p, q)
    ensures SameWalk(WalkItem(kids, p, num), WalkItem(kids, q, num))
    decreases SizeAll(kids), 2
  {
    if p.list.Some? {
      KidsAlike(kids, p, q, num);
      SameWrapped(ItemBegin(Mark(p)), WalkKids(kids, p, num).events, WalkKids(kids, q, num).events, ItemEnd, ItemEnd);
    } else {
      var (id, numbered) := NewList(num, false, 1);
      var a, b := p.(level := 0, list := Some(id)), q.(level := 0, list := Some(id));
      KidsAlike(kids, a, b, numbered);
      var x, y := WalkKids(kids, a, numbered).events, WalkKids(kids, b, numbered).events;
      SameWrapped(ItemBegin(Mark(a)), x, y, ItemEnd, ItemEnd);
      SameWrapped(ListBegin(id, false, 1), [ItemBegin(Mark(a))] + x + [ItemEnd], [ItemBegin(Mark(a))] + y + [ItemEnd],
                  ListEnd, ListEnd);
    }
  }

  lemma {:induction false} TableAlike(kids: seq<Html>, p: Context, q: Context, num: Numbering)
    requires Alike(p, q)
    ensures SameWalk(WalkTable(kids, p, num), WalkTable(kids, q, num))
    decreases SizeAll(kids), 2
  {
    hide Rows, Flat, Captions, WalkKids, WalkCells, Atoms;
    var places := TablePlaces(kids);
    if Rows(kids) == [] {
      KidsAlike(kids, p, q, num);
    } else if TableGrid.Width(places) != 0 {
      RowsSmaller(kids);
      OnePlaceEach(kids);
      KidsAlike(Captions(kids), p, q, num);
      var a, b := WalkKids(Captions(kids), p, num), WalkKids(Captions(kids), q, num);
      CellsAlike(Flat(Rows(kids)), places, p, q, a.numbering);
      var height, width := |Rows(kids)|, TableGrid.Width(places);
      SameWrapped(Boundary, a.events, b.events,
                  TableBlock(height, width, WalkCells(Flat(Rows(kids)), places, p, a.numbering).0),
                  TableBlock(height, width, WalkCells(Flat(Rows(kids)), places, q, b.numbering).0));
    }
  }

  lemma {:induction false} CellsAlike(cells: seq<Html>, places: seq<Placement>, p: Context, q: Context, num: Numbering)
    requires |cells| <= |places| && forall i | 0 <= i < |cells| :: IsCell(cells[i])
    requires Alike(p, q)
    ensures AtomsOfCells(WalkCells(cells, places, p, num).0) == AtomsOfCells(WalkCells(cells, places, q, num).0)
    ensures WalkCells(cells, places, p, num).1 == WalkCells(cells, places, q, num).1
    decreases SizeAll(cells), 1
  {
    if cells != [] {
      var k := |cells| - 1;
      assert IsCell(cells[k]);
      assert Size(cells[k]) == 1 + SizeAll(cells[k].kids);
      CellsAlike(cells[..k], places, p, q, num);
      var (a, numbered) := WalkCells(cells[..k], places, p, num);
      var (b, _) := WalkCells(cells[..k], places, q, num);
      KidsAlike(cells[k].kids, InsideCell(p, cells[k]), InsideCell(q, cells[k]), numbered);
      AtomsOfCellsSnoc(a, places[k], WalkKids(cells[k].kids, InsideCell(p, cells[k]), numbered).events);
      AtomsOfCellsSnoc(b, places[k], WalkKids(cells[k].kids, InsideCell(q, cells[k]), numbered).events);
    }
  }

  lemma AtomsOfCellsSnoc(cells: seq<CellEvents>, place: Placement, es: seq<Event>)
    ensures AtomsOfCells(cells + [CellEvents(place, es)]) == AtomsOfCells(cells) + [CellAtoms(place, Atoms(es))]
  {
    assert (cells + [CellEvents(place, es)])[..|cells|] == cells;
  }

  // ---- Cuts do not matter ----

  lemma {:induction false} KidsConcat(a: seq<Html>, b: seq<Html>, ctx: Context, num: Numbering)
    ensures var first := WalkKids(a, ctx, num);
            var second := WalkKids(b, ctx, first.numbering);
            WalkKids(a + b, ctx, num) == Walked(first.events + second.events, second.numbering)
    decreases |b|
  {
    hide WalkNode;
    var first := WalkKids(a, ctx, num);
    if b == [] {
      assert a + b == a;
      assert first.events + [] == first.events;
    } else {
      var k := |b| - 1;
      KidsConcat(a, b[..k], ctx, num);
      assert (a + b)[..|a + b| - 1] == a + b[..k];
      var mid := WalkKids(b[..k], ctx, first.numbering);
      var last := WalkNode(b[k], ctx, mid.numbering);
      assert first.events + mid.events + last.events == first.events + (mid.events + last.events);
    }
  }

  /** Taking away the tag of an inline element, whatever its format, keeps every block's text. */
  lemma UnwrapInline(before: seq<Html>, style: Format, inner: seq<Html>, after: seq<Html>, ctx: Context, num: Numbering)
    ensures SameWalk(WalkKids(before + [Element(Inline, style, inner)] + after, ctx, num),
                     WalkKids(before + inner + after, ctx, num))
  {
    var e := Element(Inline, style, inner);
    var first := WalkKids(before, ctx, num);
    assert WalkNode(e, ctx, first.numbering) == WalkKids(inner, Inside(ctx, e), first.numbering);
    KidsAlike(inner, Inside(ctx, e), ctx, first.numbering);
    hide WalkNode, Atoms;
    OneKid(e, ctx, first.numbering);
    KidsConcat(before, [e], ctx, num);
    KidsConcat(before, inner, ctx, num);
    KidsConcat(before + [e], after, ctx, num);
    KidsConcat(before + inner, after, ctx, num);
    AtomsConcat(first.events, WalkKids([e], ctx, first.numbering).events);
    AtomsConcat(first.events, WalkKids(inner, ctx, first.numbering).events);
    var x, y := WalkKids(before + [e], ctx, num), WalkKids(before + inner, ctx, num);
    AtomsConcat(x.events, WalkKids(after, ctx, x.numbering).events);
    AtomsConcat(y.events, WalkKids(after, ctx, y.numbering).events);
  }

  lemma OneKid(n: Html, ctx: Context, num: Numbering)
    ensures WalkKids([n], ctx, num) == WalkNode(n, ctx, num)
  {
    assert [n][..0] == [];
    assert [] + WalkNode(n, ctx, num).events == WalkNode(n, ctx, num).events;
  }

  lemma {:induction false} CharsConcat(a: string, b: string)
    ensures Chars(a + b) == Chars(a) + Chars(b)
  {
    if b == "" {
      assert a + b == a;
    } else {
      CharsConcat(a, b[..|b| - 1]);
      assert (a + b)[..|a + b| - 1] == a + b[..|b| - 1];
    }
  }

  lemma PiecesConcat(a: seq<Token>, b: seq<Token>)
    ensures Pieces(a + b) == Pieces(a) + Pieces(b)
  {
  }

  lemma {:induction false} CharsStay(s: string)
    ensures Split(Chars(s)) == Chars(s)
  {
    if s != "" {
      CharsStay(s[..|s| - 1]);
      SplitConcat(Chars(s[..|s| - 1]), [Ch(s[|s| - 1])]);
      SplitSingle(Ch(s[|s| - 1]));
    }
  }

  /** A text cut in two is the text; a preformatted one, where the cut loses no line break. */
  lemma CutText(a: string, b: string, f: Format, g: Format, h: Format)
    ensures Atoms([TextNode(a, f, false), TextNode(b, g, false)]) == Atoms([TextNode(a + b, h, false)])
  {
    hide Atoms, Chars;
    assert [TextNode(a, f, false), TextNode(b, g, false)] == [TextNode(a, f, false)] + [TextNode(b, g, false)];
    AtomsConcat([TextNode(a, f, false)], [TextNode(b, g, false)]);
    AtomsOne(TextNode(a, f, false));
    AtomsOne(TextNode(b, g, false));
    AtomsOne(TextNode(a + b, h, false));
    CharsConcat(a, b);
    forall s: string ensures Split(Chars(s)) == Chars(s) { CharsStay(s); }
    PiecesConcat(Chars(a), Chars(b));
  }

  lemma BodyLetters(raw: string)
    ensures Split(TextTokens(raw, true)) == Letters(Body(raw))
  {
    hide Letters;
    assert Letters("") == [] by { NoLetters(); }
    SplitSingle(Verbatim(Body(raw)));
  }

  lemma NoLetters()
    ensures Letters("") == []
  {
  }

  lemma CutPreformatted(a: string, b: string, f: Format, g: Format, h: Format)
    requires CutKeeps(a, b)
    ensures Atoms([TextNode(a, f, true), TextNode(b, g, true)]) == Atoms([TextNode(a + b, h, true)])
  {
    hide Atoms, Letters, TextTokens, Strip, Clean, Split, Blank, Pieces;
    assert [TextNode(a, f, true), TextNode(b, g, true)] == [TextNode(a, f, true)] + [TextNode(b, g, true)];
    AtomsConcat([TextNode(a, f, true)], [TextNode(b, g, true)]);
    AtomsOne(TextNode(a, f, true));
    AtomsOne(TextNode(b, g, true));
    AtomsOne(TextNode(a + b, h, true));
    BodyLetters(a);
    BodyLetters(b);
    BodyLetters(a + b);
    BodiesJoin(a, b);
    LettersConcat(Body(a), Body(b));
    PiecesConcat(Letters(Body(a)), Letters(Body(b)));
  }

  lemma BodiesJoin(a: string, b: string)
    ensures Body(a) + Body(b) == Body(a + b) <==> CutKeeps(a, b)
  {
    hide Strip, Clean, Blank;
    CleanConcat(a, b);
    StripsAddUp(Clean(a), Clean(b));
  }

  // ---- Preformatted text ----

  lemma CollectTwo(x: Event, y: Event)
    ensures Collect(NOTHING, [x, y]) == CollectOne(CollectOne(NOTHING, x), y)
  {
    hide CollectOne;
    CollectSnoc(NOTHING, [], x);
    CollectSnoc(NOTHING, [x], y);
    assert [] + [x] == [x] && [x] + [y] == [x, y];
  }

  lemma CollectSnoc(g: Gathered, es: seq<Event>, e: Event)
    ensures Collect(g, es + [e]) == CollectOne(Collect(g, es), e)
  {
    hide CollectOne;
    assert (es + [e])[..|es|] == es;
  }

  lemma VerbatimRun(before: seq<Token>, text: string)
    requires Run(EMPTY_LINE, before).breaks == 0
    ensures Run(EMPTY_LINE, before + [Verbatim(text)]).out == Run(EMPTY_LINE, before).out + text
    ensures Run(EMPTY_LINE, before + [Verbatim(text)]).breaks == 0
  {
    RunSnoc(EMPTY_LINE, before, Verbatim(text));
    assert Breaks(0) == "";
    assert Run(EMPTY_LINE, before).out + "" + text == Run(EMPTY_LINE, before).out + text;
  }

  lemma TokensRun(before: seq<Token>, raw: string)
    requires Run(EMPTY_LINE, before).breaks == 0
    ensures Run(EMPTY_LINE, before + TextTokens(raw, true)).out == Run(EMPTY_LINE, before).out + Strip(Clean(raw), '\n')
    ensures Run(EMPTY_LINE, before + TextTokens(raw, true)).breaks == 0
  {
    var body := Strip(Clean(raw), '\n');
    if body == "" {
      assert before + [] == before;
    } else {
      VerbatimRun(before, body);
    }
  }

  /** The text a preformatted node sends, without the line breaks at its ends. */
  function Body(raw: string): string {
    Strip(Clean(raw), '\n')
  }

  function OneParagraph(text: string): seq<TextBlock> {
    if text == "" then [] else [TextParagraph(text, None)]
  }

  lemma BodyToken(raw: string)
    ensures TextTokens(raw, true) == if Body(raw) == "" then [] else [Verbatim(Body(raw))]
  {
  }

  /** What one or two bodies in a row make of a page. */
  lemma BodiesOpen(line: seq<Token>)
    requires line == [] || line[0].Verbatim?
    requires Run(EMPTY_LINE, line).out == "" <==> line == []
    ensures Finish(Gathered([], line, None)).done == OneParagraph(Run(EMPTY_LINE, line).out)
  {
    ParagraphTextIsRun(line);
    if line == [] {
      assert !Opens(line);
    } else {
      assert OpensOn(line[0]);
      assert [] + [TextParagraph(ParagraphText(line), None)] == [TextParagraph(ParagraphText(line), None)];
    }
  }

  /** Preformatted text is its nodes' bodies, each without the line breaks at its ends. */
  lemma PreformattedText(a: string, b: string, f: Format, g: Format)
    ensures PageBlocks([TextNode(a, f, true), TextNode(b, g, true)]) == OneParagraph(Body(a) + Body(b))
  {
    hide Run, Strip, Clean, Opens, ParagraphText;
    var first, second := TextTokens(a, true), TextTokens(b, true);
    CollectTwo(TextNode(a, f, true), TextNode(b, g, true));
    assert [] + first == first;
    RunNothing();
    TokensRun([], a);
    TokensRun(first, b);
    assert "" + Body(a) == Body(a);
    assert Collect(NOTHING, [TextNode(a, f, true), TextNode(b, g, true)]) == Gathered([], first + second, None);
    BodyToken(a);
    BodyToken(b);
    BodiesOpen(first + second);
  }

  lemma PreformattedNode(raw: string, f: Format)
    ensures PageBlocks([TextNode(raw, f, true)]) == OneParagraph(Body(raw))
  {
    hide Run, Strip, Clean, Opens, ParagraphText;
    var first := TextTokens(raw, true);
    CollectSnoc(NOTHING, [], TextNode(raw, f, true));
    assert [] + [TextNode(raw, f, true)] == [TextNode(raw, f, true)] && [] + first == first;
    RunNothing();
    TokensRun([], raw);
    assert "" + Body(raw) == Body(raw);
    BodyToken(raw);
    BodiesOpen(first);
  }

  // ---- When a cut keeps preformatted text ----

  predicate Blank(s: string) {
    forall i | 0 <= i < |s| :: s[i] == '\n'
  }

  lemma {:induction false} LeftOfBlank(s: string)
    ensures StripLeft(s, '\n') == "" <==> Blank(s)
    ensures StripLeft(s, '\n') != "" ==> s != "" && (EndsWith(StripLeft(s, '\n'), '\n') <==> EndsWith(s, '\n'))
  {
    if s != "" && s[0] == '\n' {
      LeftOfBlank(s[1..]);
      assert s == [s[0]] + s[1..];
    }
  }

  lemma {:induction false} RightOfBlank(s: string)
    ensures StripRight(s, '\n') == "" <==> Blank(s)
  {
    if EndsWith(s, '\n') {
      RightOfBlank(s[..|s| - 1]);
      assert s == s[..|s| - 1] + [s[|s| - 1]];
    }
  }

  lemma {:induction false} StripLeftConcat(x: string, y: string)
    ensures StripLeft(x + y, '\n') == if StripLeft(x, '\n') != "" then StripLeft(x, '\n') + y else StripLeft(y, '\n')
  {
    if x == "" {
      assert x + y == y;
    } else if x[0] == '\n' {
      StripLeftConcat(x[1..], y);
      assert (x + y)[1..] == x[1..] + y;
    }
  }

  lemma {:induction false} StripRightConcat(x: string, y: string)
    ensures StripRight(x + y, '\n') == if StripRight(y, '\n') != "" then x + StripRight(y, '\n') else StripRight(x, '\n')
  {
    if y == "" {
      assert x + y == x;
    } else if EndsWith(y, '\n') {
      StripRightConcat(x, y[..|y| - 1]);
      assert (x + y)[..|x + y| - 1] == x + y[..|y| - 1];
    } else {
      assert (x + y)[|x + y| - 1] == y[|y| - 1];
    }
  }

  /** What `StripLeft` takes are line breaks. */
  lemma {:induction false} StripLeftTakes(s: string) returns (k: nat)
    ensures k <= |s| && Blank(s[..k]) && s == s[..k] + StripLeft(s, '\n')
    ensures k == 0 <==> !(s != "" && s[0] == '\n')
  {
    if s != "" && s[0] == '\n' {
      var j := StripLeftTakes(s[1..]);
      k := j + 1;
      assert s[..k] == [s[0]] + s[1..][..j];
      assert s == [s[0]] + s[1..];
    } else {
      k := 0;
    }
  }

  lemma {:induction false} StripRightTakes(s: string)
    ensures |StripRight(s, '\n')| <= |s|
    ensures |StripRight(s, '\n')| == |s| <==> !EndsWith(s, '\n')
  {
    if EndsWith(s, '\n') { StripRightTakes(s[..|s| - 1]); }
  }

  /** Stripping the whole is stripping its halves, where neither is blank. */
  lemma StripHalves(x: string, y: string)
    requires !Blank(x) && !Blank(y)
    ensures Strip(x + y, '\n') == StripLeft(x, '\n') + StripRight(y, '\n')
    ensures |Strip(x, '\n')| + |Strip(y, '\n')| <= |StripLeft(x, '\n')| + |StripRight(y, '\n')|
    ensures |Strip(x, '\n')| + |Strip(y, '\n')| == |StripLeft(x, '\n')| + |StripRight(y, '\n')|
            <==> !EndsWith(x, '\n') && y[0] != '\n'
    ensures !EndsWith(x, '\n') && y[0] != '\n' ==> Strip(x, '\n') == StripLeft(x, '\n') && Strip(y, '\n') == StripRight(y, '\n')
  {
    LeftOfBlank(x);
    LeftOfBlank(y);
    RightOfBlank(y);
    StripLeftConcat(x, y);
    StripRightConcat(StripLeft(x, '\n'), y);
    StripRightTakes(StripLeft(x, '\n'));
    var k := StripLeftTakes(y);
    RightOfBlank(StripLeft(y, '\n'));
    LeftIsNotBlank(y);
    StripRightConcat(y[..k], StripLeft(y, '\n'));
    hide StripLeft, StripRight, Blank;
  }

  lemma LeftIsNotBlank(s: string)
    requires !Blank(s)
    ensures !Blank(StripLeft(s, '\n'))
  {
    var k := StripLeftTakes(s);
    var rest := StripLeft(s, '\n');
    if Blank(rest) {
      forall i | 0 <= i < |s| ensures s[i] == '\n' {
        if i >= k { assert s[i] == rest[i - k]; } else { assert s[i] == s[..k][i]; }
      }
    }
  }

  lemma StripBlank(s: string)
    ensures Strip(s, '\n') == "" <==> Blank(s)
  {
    LeftOfBlank(s);
    RightOfBlank(StripLeft(s, '\n'));
    if !Blank(s) { LeftIsNotBlank(s); }
  }

  lemma StripsAddUp(x: string, y: string)
    ensures Strip(x, '\n') + Strip(y, '\n') == Strip(x + y, '\n')
            <==> Blank(x) || Blank(y) || (!EndsWith(x, '\n') && y[0] != '\n')
  {
    hide StripLeft, StripRight, Blank;
    StripBlank(x);
    StripBlank(y);
    if Blank(x) || Blank(y) {
      BlankHalf(x, y);
    } else {
      StripHalves(x, y);
    }
  }

  lemma BlankHalf(x: string, y: string)
    requires Blank(x) || Blank(y)
    ensures Strip(x, '\n') + Strip(y, '\n') == Strip(x + y, '\n')
  {
    LeftOfBlank(x);
    RightOfBlank(y);
    LeftOfBlank(y);
    StripLeftConcat(x, y);
    StripRightConcat(StripLeft(x, '\n'), y);
    StripBlank(x);
    StripBlank(y);
  }

  lemma {:induction false} CleanConcat(a: string, b: string)
    ensures Clean(a + b) == Clean(a) + Clean(b)
  {
    if b == "" {
      assert a + b == a;
    } else {
      CleanConcat(a, b[..|b| - 1]);
      assert (a + b)[..|a + b| - 1] == a + b[..|b| - 1];
    }
  }

  /** A cut keeps preformatted text exactly when one side is nothing but line breaks, or neither
      has a line break at the cut: otherwise the line breaks there are lost. */
  predicate CutKeeps(a: string, b: string) {
    Blank(Clean(a)) || Blank(Clean(b)) || (!EndsWith(Clean(a), '\n') && Clean(b)[0] != '\n')
  }

  // ---- Bodies ----

  /** What a body is: nothing XML cannot carry, and no line break at either end. */
  predicate Trim(t: string) {
    t != "" && Clean(t) == t && t[0] != '\n' && !EndsWith(t, '\n')
  }

  lemma {:induction false} CleanTwice(s: string)
    ensures forall i | 0 <= i < |Clean(s)| :: !Forbidden(Clean(s)[i])
  {
    if s != "" { CleanTwice(s[..|s| - 1]); }
  }

  lemma {:induction false} NothingToClean(s: string)
    requires forall i | 0 <= i < |s| :: !Forbidden(s[i])
    ensures Clean(s) == s
  {
    if s != "" { NothingToClean(s[..|s| - 1]); }
  }

  lemma {:induction false} StrippedLeft(s: string)
    ensures forall c | c in StripLeft(s, '\n') :: c in s
    ensures StripLeft(s, '\n') != "" ==> StripLeft(s, '\n')[0] != '\n'
  {
    if s != "" && s[0] == '\n' { StrippedLeft(s[1..]); }
  }

  lemma {:induction false} StrippedRight(s: string)
    ensures forall c | c in StripRight(s, '\n') :: c in s
    ensures StripRight(s, '\n') != "" ==> StripRight(s, '\n')[0] == s[0] && !EndsWith(StripRight(s, '\n'), '\n')
  {
    if EndsWith(s, '\n') { StrippedRight(s[..|s| - 1]); }
  }

  lemma BodyIsTrim(raw: string)
    requires Body(raw) != ""
    ensures Trim(Body(raw))
  {
    var clean := Clean(raw);
    CleanTwice(raw);
    StrippedLeft(clean);
    StrippedRight(StripLeft(clean, '\n'));
    forall i | 0 <= i < |Body(raw)| ensures !Forbidden(Body(raw)[i]) {
      assert Body(raw)[i] in clean;
    }
    NothingToClean(Body(raw));
  }

  lemma TrimIsBody(t: string)
    requires Trim(t)
    ensures Body(t) == t
  {
  }

  lemma TrimsJoin(x: string, y: string)
    requires Trim(x) && Trim(y)
    ensures Trim(x + y) && CutKeeps(x, y)
  {
    CleanConcat(x, y);
    assert (x + y)[0] == x[0] && (x + y)[|x + y| - 1] == y[|y| - 1];
  }

  lemma PreformattedCutExactly(a: string, b: string, f: Format, g: Format, h: Format)
    ensures PageBlocks([TextNode(a, f, true), TextNode(b, g, true)]) == PageBlocks([TextNode(a + b, h, true)]) <==> CutKeeps(a, b)
  {
    PreformattedText(a, b, f, g);
    PreformattedNode(a + b, h);
    CleanConcat(a, b);
    StripsAddUp(Clean(a), Clean(b));
    hide PageBlocks, Strip, Clean, Blank;
  }

  /** So a tag inside `pre` can cost a line break: a line that ends where a tag begins runs on
      into the next. */
  lemma PreformattedCutMatters(a: string, b: string, f: Format, g: Format, h: Format)
    requires !Blank(Clean(a)) && !Blank(Clean(b))
    ensures PageBlocks([TextNode(a + "\n", f, true), TextNode(b, g, true)]) != PageBlocks([TextNode(a + "\n" + b, h, true)])
  {
    CleanConcat(a, "\n");
    assert Clean("\n") == "\n";
    assert EndsWith(Clean(a) + "\n", '\n');
    var i :| 0 <= i < |Clean(a)| && Clean(a)[i] != '\n';
    assert (Clean(a) + "\n")[i] == Clean(a)[i];
    PreformattedCutExactly(a + "\n", b, f, g, h);
  }
}
