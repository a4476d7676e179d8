/** A translation's text depends on its plain tree only: the HTML without inline tags, comments,
    formats, and cuts in text.

    `Plain` takes them away at every depth, and leaves of preformatted text what is written of
    it. An inline tag is taken away where its parent is walked child by child; a list, a table,
    a row group and a row are looked at for elements of some kind, so among their children it
    stays. `PlainTreeDecides` proves that two trees with the same plain form make the same
    document, and `RecutKeepsDocument` that taking one tag away, or joining one cut, anywhere, is
    such a case; the last lemmas say what taking one away costs or gains among the others'
    children. */
module PlainTree {
  import opened Options
  import opened Whitespace
  import opened Document
  import opened DocumentText
  import opened HtmlWalk
  import opened Segmentation
  import opened ContentKept
  import TableGrid

  // ---- The plain form ----

  /** One more child; text goes on from the text before it. */
  function Join(kids: seq<Html>, n: Html): (joined: seq<Html>)
    ensures joined != []
  {
    if n.Text? && kids != [] && kids[|kids| - 1].Text? then
      kids[..|kids| - 1] + [Text(kids[|kids| - 1].text + n.text)]
    else kids + [n]
  }

  function JoinAll(kids: seq<Html>, more: seq<Html>): seq<Html> {
    if more == [] then kids else Join(JoinAll(kids, more[..|more| - 1]), more[|more| - 1])
  }

  /** Whether all children of such an element are walked, whatever they are. */
  predicate WalksAll(tag: Tag) {
    !(tag.Unordered? || tag.Ordered? || tag.TableTag? || tag.RowGroup? || tag.Row?)
  }

  predicate IsLeaf(tag: Tag) {
    tag.Skipped? || tag.LineBreakTag? || tag.Image? || tag.RuleTag?
  }

  /** The node itself, plain inside. */
  function Plain(n: Html, pre: bool): Html
    decreases Size(n), 0
  {
    if !n.Element? then n
    else if IsLeaf(n.tag) then Element(n.tag, PLAIN, [])
    else if WalksAll(n.tag) then Element(n.tag, PLAIN, PlainKids(n.kids, PreInside(n.tag, pre)))
    else Element(n.tag, PLAIN, PlainEach(n.kids, pre))
  }

  /** What stands for a node among children that are all walked; of preformatted text, what is
      written of it. */
  function PlainOf(n: Html, pre: bool): seq<Html>
    decreases Size(n), 1
  {
    match n
    case Text(text) => if !pre then [n] else if Body(text) == "" then [] else [Text(Body(text))]
    case Comment => []
    case Element(tag, _, kids) => if tag.Inline? then PlainKids(kids, pre) else [Plain(n, pre)]
  }

  function PlainKids(kids: seq<Html>, pre: bool): seq<Html>
    decreases SizeAll(kids), 2
  {
    if kids == [] then [] else JoinAll(PlainKids(kids[..|kids| - 1], pre), PlainOf(kids[|kids| - 1], pre))
  }

  function PlainEach(kids: seq<Html>, pre: bool): (out: seq<Html>)
    ensures |out| == |kids|
    decreases SizeAll(kids), 2
  {
    if kids == [] then [] else PlainEach(kids[..|kids| - 1], pre) + [Plain(kids[|kids| - 1], pre)]
  }

  // ---- Joining ----

  lemma JoinTwice(kids: seq<Html>, x: string, y: string)
    ensures Join(Join(kids, Text(x)), Text(y)) == Join(kids, Text(x + y))
  {
    if kids != [] && kids[|kids| - 1].Text? {
      assert kids[|kids| - 1].text + x + y == kids[|kids| - 1].text + (x + y);
    }
  }

  lemma JoinAllSnoc(kids: seq<Html>, more: seq<Html>, n: Html)
    ensures JoinAll(kids, more + [n]) == Join(JoinAll(kids, more), n)
  {
    hide Join;
    assert (more + [n])[..|more|] == more;
  }

  lemma JoinInside(kids: seq<Html>, more: seq<Html>, n: Html)
    ensures JoinAll(kids, Join(more, n)) == Join(JoinAll(kids, more), n)
  {
    if n.Text? && more != [] && more[|more| - 1].Text? {
      var init, z := more[..|more| - 1], more[|more| - 1].text;
      assert more == init + [Text(z)];
      JoinAllSnoc(kids, init, Text(z));
      JoinAllSnoc(kids, init, Text(z + n.text));
      JoinTwice(JoinAll(kids, init), z, n.text);
    } else {
      JoinAllSnoc(kids, more, n);
    }
  }

  lemma {:induction false} JoinAllConcat(a: seq<Html>, b: seq<Html>, c: seq<Html>)
    ensures JoinAll(JoinAll(a, b), c) == JoinAll(a, JoinAll(b, c))
  {
    hide Join;
    if c != [] {
      JoinAllConcat(a, b, c[..|c| - 1]);
      JoinInside(a, JoinAll(b, c[..|c| - 1]), c[|c| - 1]);
    }
  }

  lemma {:induction false} PlainConcat(a: seq<Html>, b: seq<Html>, pre: bool)
    ensures PlainKids(a + b, pre) == JoinAll(PlainKids(a, pre), PlainKids(b, pre))
    decreases |b|
  {
    hide JoinAll, PlainOf;
    if b == [] {
      assert a + b == a;
      JoinNone(PlainKids(a, pre));
    } else {
      var init, last := b[..|b| - 1], b[|b| - 1];
      PlainConcat(a, init, pre);
      assert (a + b)[..|a + b| - 1] == a + init;
      JoinAllConcat(PlainKids(a, pre), PlainKids(init, pre), PlainOf(last, pre));
    }
  }

  lemma JoinNone(kids: seq<Html>)
    ensures JoinAll(kids, []) == kids
  {
  }

  // ---- One change ----

  /** The inline element at `i` is taken away, and its children stand in its place. */
  predicate UnwrapsAt(a: seq<Html>, b: seq<Html>, i: nat) {
    i < |a| && Is(a[i], Inline) && b == a[..i] + a[i].kids + a[i + 1..]
  }

  /** Two texts in a row are made one. */
  predicate JoinsAt(a: seq<Html>, b: seq<Html>, i: nat) {
    && i + 1 < |a| && a[i].Text? && a[i + 1].Text?
    && b == a[..i] + [Text(a[i].text + a[i + 1].text)] + a[i + 2..]
  }

  /** Two lists of children are the same but for one change, in them or somewhere below: an inline
      tag taken away where all children are walked, two texts joined there, preformatted ones only
      where no line break is lost between them, or a comment dropped; and what formats a changed element has does not matter. */
  ghost predicate Recut(a: seq<Html>, b: seq<Html>, whole: bool, pre: bool)
    decreases SizeAll(a)
  {
    || (whole && exists i: nat :: UnwrapsAt(a, b, i))
    || (whole && exists i: nat :: JoinsAt(a, b, i) && (pre ==> CutKeeps(a[i].text, a[i + 1].text)))
    || (whole && exists i: nat :: i < |a| && a[i].Comment? && b == a[..i] + a[i + 1..])
    || (exists i: nat :: i < |a| && RecutBelow(a, b, i, pre))
  }

  ghost predicate RecutBelow(a: seq<Html>, b: seq<Html>, i: nat, pre: bool)
    requires i < |a|
    decreases SizeAll(a), 0
  {
    && a[i].Element? && |b| == |a| && b[i].Element? && b[i].tag == a[i].tag && b == a[i := b[i]]
    && (SizeOfOne(a, i); Recut(a[i].kids, b[i].kids, WalksAll(a[i].tag), PreInside(a[i].tag, pre)))
  }

  lemma {:induction false} SizeOfOne(kids: seq<Html>, i: nat)
    requires i < |kids|
    ensures Size(kids[i]) <= SizeAll(kids)
  {
    if i < |kids| - 1 { SizeOfOne(kids[..|kids| - 1], i); }
  }

  /** What stands in the middle matters by its plain form only. */
  lemma PlainMiddle(before: seq<Html>, a: seq<Html>, b: seq<Html>, after: seq<Html>, pre: bool)
    requires PlainKids(a, pre) == PlainKids(b, pre)
    ensures PlainKids(before + a + after, pre) == PlainKids(before + b + after, pre)
  {
    hide *;
    PlainConcat(before, a, pre);
    PlainConcat(before, b, pre);
    PlainConcat(before + a, after, pre);
    PlainConcat(before + b, after, pre);
  }

  lemma PlainOne(n: Html, pre: bool)
    ensures PlainKids([n], pre) == JoinAll([], PlainOf(n, pre))
  {
    assert [n][..0] == [];
  }

  lemma {:induction false} PlainIsJoined(kids: seq<Html>, pre: bool)
    ensures JoinAll([], PlainKids(kids, pre)) == PlainKids(kids, pre)
  {
    if kids != [] {
      hide PlainOf, JoinAll;
      var init := PlainKids(kids[..|kids| - 1], pre);
      PlainIsJoined(kids[..|kids| - 1], pre);
      JoinAllConcat([], init, PlainOf(kids[|kids| - 1], pre));
    }
  }

  lemma UnwrapIsPlain(a: seq<Html>, b: seq<Html>, i: nat, pre: bool)
    requires UnwrapsAt(a, b, i)
    ensures PlainKids(a, pre) == PlainKids(b, pre)
  {
    hide PlainKids, JoinAll;
    PlainOne(a[i], pre);
    assert PlainOf(a[i], pre) == PlainKids(a[i].kids, pre);
    PlainIsJoined(a[i].kids, pre);
    PlainMiddle(a[..i], [a[i]], a[i].kids, a[i + 1..], pre);
    assert a == a[..i] + [a[i]] + a[i + 1..];
  }

  lemma TwoTexts(x: string, y: string, pre: bool)
    requires pre ==> CutKeeps(x, y)
    ensures PlainKids([Text(x), Text(y)], pre) == PlainKids([Text(x + y)], pre)
  {
    hide PlainKids, Body, CutKeeps;
    PlainConcat([Text(x)], [Text(y)], pre);
    assert [Text(x)] + [Text(y)] == [Text(x), Text(y)];
    OneText(x, pre);
    OneText(y, pre);
    OneText(x + y, pre);
    BodiesJoin(x, y);
    JoinTexts(x, y);
    JoinTexts(Body(x), Body(y));
    assert Body(x) + "" == Body(x) && "" + Body(y) == Body(y);
    JoinNone([]);
    JoinNone([Text(Body(x))]);
  }

  lemma JoinTexts(x: string, y: string)
    ensures JoinAll([Text(x)], [Text(y)]) == [Text(x + y)] && JoinAll([], [Text(y)]) == [Text(y)]
  {
    assert [Text(y)][..0] == [];
  }

  lemma OneText(s: string, pre: bool)
    ensures PlainKids([Text(s)], pre) == if !pre then [Text(s)] else if Body(s) == "" then [] else [Text(Body(s))]
  {
    PlainOne(Text(s), pre);
    JoinTexts("", s);
    JoinTexts("", Body(s));
  }

  lemma JoinIsPlain(a: seq<Html>, b: seq<Html>, i: nat, pre: bool)
    requires JoinsAt(a, b, i) && (pre ==> CutKeeps(a[i].text, a[i + 1].text))
    ensures PlainKids(a, pre) == PlainKids(b, pre)
  {
    hide PlainKids, CutKeeps;
    TwoTexts(a[i].text, a[i + 1].text, pre);
    PlainMiddle(a[..i], [a[i], a[i + 1]], [Text(a[i].text + a[i + 1].text)], a[i + 2..], pre);
    assert a == a[..i] + [a[i], a[i + 1]] + a[i + 2..];
  }

  lemma CommentIsPlain(a: seq<Html>, i: nat, pre: bool)
    requires i < |a| && a[i].Comment?
    ensures PlainKids(a, pre) == PlainKids(a[..i] + a[i + 1..], pre)
  {
    PlainOne(a[i], pre);
    PlainMiddle(a[..i], [a[i]], [], a[i + 1..], pre);
    assert a == a[..i] + [a[i]] + a[i + 1..] && a[..i] + [] + a[i + 1..] == a[..i] + a[i + 1..];
  }

  lemma {:induction false} PlainEachIs(kids: seq<Html>, pre: bool)
    ensures forall i | 0 <= i < |kids| :: PlainEach(kids, pre)[i] == Plain(kids[i], pre)
  {
    hide Plain;
    if kids != [] { PlainEachIs(kids[..|kids| - 1], pre); }
  }

  /** One change, wherever it is, is gone in the plain form. */
  lemma {:induction false} RecutIsPlain(a: seq<Html>, b: seq<Html>, whole: bool, pre: bool)
    requires Recut(a, b, whole, pre)
    ensures if whole then PlainKids(a, pre) == PlainKids(b, pre) else PlainEach(a, pre) == PlainEach(b, pre)
    decreases SizeAll(a)
  {
    hide PlainKids, PlainEach, Plain;
    if i: nat :| i < |a| && RecutBelow(a, b, i, pre) {
      SizeOfOne(a, i);
      RecutIsPlain(a[i].kids, b[i].kids, WalksAll(a[i].tag), PreInside(a[i].tag, pre));
      SamePlain(a[i], b[i], pre);
      BelowIsPlain(a, b, i, pre);
    } else if whole {
      if i: nat :| UnwrapsAt(a, b, i) {
        UnwrapIsPlain(a, b, i, pre);
      } else if i: nat :| JoinsAt(a, b, i) && (pre ==> CutKeeps(a[i].text, a[i + 1].text)) {
        JoinIsPlain(a, b, i, pre);
      } else {
        var i: nat :| i < |a| && a[i].Comment? && b == a[..i] + a[i + 1..];
        CommentIsPlain(a, i, pre);
      }
    }
  }

  lemma BelowIsPlain(a: seq<Html>, b: seq<Html>, i: nat, pre: bool)
    requires i < |a| && |b| == |a| && b == a[i := b[i]]
    requires Plain(a[i], pre) == Plain(b[i], pre) && PlainOf(a[i], pre) == PlainOf(b[i], pre)
    ensures PlainKids(a, pre) == PlainKids(b, pre) && PlainEach(a, pre) == PlainEach(b, pre)
  {
    hide PlainKids, PlainEach, Plain, PlainOf, JoinAll;
    PlainOne(a[i], pre);
    PlainOne(b[i], pre);
    PlainMiddle(a[..i], [a[i]], [b[i]], a[i + 1..], pre);
    assert a == a[..i] + [a[i]] + a[i + 1..] && b == a[..i] + [b[i]] + a[i + 1..];
    PlainEachIs(a, pre);
    PlainEachIs(b, pre);
  }

  lemma SamePlain(m: Html, n: Html, pre: bool)
    requires m.Element? && n.Element? && m.tag == n.tag
    requires var inside := PreInside(m.tag, pre);
             if WalksAll(m.tag) then PlainKids(m.kids, inside) == PlainKids(n.kids, inside)
             else PlainEach(m.kids, inside) == PlainEach(n.kids, inside)
    ensures Plain(m, pre) == Plain(n, pre) && PlainOf(m, pre) == PlainOf(n, pre)
  {
  }

  // ---- The walk of the plain form ----

  lemma SameSnoc(a: seq<Html>, b: seq<Html>, m: Html, n: Html, p: Context, q: Context, num: Numbering)
    requires SameWalk(WalkKids(a, p, num), WalkKids(b, q, num))
    requires var mid := WalkKids(b, q, num).numbering; SameWalk(WalkNode(m, p, mid), WalkNode(n, q, mid))
    ensures SameWalk(WalkKids(a + [m], p, num), WalkKids(b + [n], q, num))
  {
    hide WalkNode, Atoms;
    assert (a + [m])[..|a|] == a && (b + [n])[..|b|] == b;
    var x, y := WalkKids(a, p, num), WalkKids(b, q, num);
    AtomsConcat(x.events, WalkNode(m, p, x.numbering).events);
    AtomsConcat(y.events, WalkNode(n, q, y.numbering).events);
  }

  lemma SameAppend(a: seq<Html>, b: seq<Html>, c: seq<Html>, d: seq<Html>, p: Context, q: Context, num: Numbering)
    requires SameWalk(WalkKids(a, p, num), WalkKids(b, q, num))
    requires var mid := WalkKids(b, q, num).numbering; SameWalk(WalkKids(c, p, mid), WalkKids(d, q, mid))
    ensures SameWalk(WalkKids(a + c, p, num), WalkKids(b + d, q, num))
  {
    hide WalkKids, Atoms;
    KidsConcat(a, c, p, num);
    KidsConcat(b, d, q, num);
    var x, y := WalkKids(a, p, num), WalkKids(b, q, num);
    AtomsConcat(x.events, WalkKids(c, p, x.numbering).events);
    AtomsConcat(y.events, WalkKids(d, q, y.numbering).events);
  }

  lemma TextsWalk(x: string, y: string, ctx: Context, num: Numbering)
    requires ctx.pre ==> CutKeeps(x, y)
    ensures SameWalk(WalkKids([Text(x + y)], ctx, num), WalkKids([Text(x), Text(y)], ctx, num))
  {
    hide Atoms, CutKeeps;
    assert [Text(x), Text(y)][..1] == [Text(x)];
    forall s: string ensures WalkKids([Text(s)], ctx, num) == Walked([TextNode(s, ctx.format, ctx.pre)], num) {
      OneKid(Text(s), ctx, num);
    }
    assert WalkKids([Text(x), Text(y)], ctx, num).events == [TextNode(x, ctx.format, ctx.pre), TextNode(y, ctx.format, ctx.pre)];
    if ctx.pre {
      CutPreformatted(x, y, ctx.format, ctx.format, ctx.format);
    } else {
      CutText(x, y, ctx.format, ctx.format, ctx.format);
    }
  }

  ghost predicate TrimOne(n: Html) {
    n.Text? ==> Trim(n.text)
  }

  /** The texts are bodies. */
  ghost predicate AllTrim(kids: seq<Html>) {
    forall i | 0 <= i < |kids| :: TrimOne(kids[i])
  }

  lemma JoinTrims(kids: seq<Html>, n: Html)
    requires AllTrim(kids) && TrimOne(n)
    ensures AllTrim(Join(kids, n))
  {
    hide Trim;
    if n.Text? && kids != [] && kids[|kids| - 1].Text? {
      assert TrimOne(kids[|kids| - 1]);
      TrimsJoin(kids[|kids| - 1].text, n.text);
    }
  }

  lemma {:induction false} JoinAllTrims(kids: seq<Html>, more: seq<Html>)
    requires AllTrim(kids) && AllTrim(more)
    ensures AllTrim(JoinAll(kids, more))
  {
    if more != [] {
      assert TrimOne(more[|more| - 1]);
      JoinAllTrims(kids, more[..|more| - 1]);
      JoinTrims(JoinAll(kids, more[..|more| - 1]), more[|more| - 1]);
    }
  }

  lemma {:induction false} PlainOfTrims(n: Html)
    ensures AllTrim(PlainOf(n, true))
    decreases Size(n), 1
  {
    hide Trim, Body, PlainKids, Plain;
    match n {
      case Text(text) => if Body(text) != "" { BodyIsTrim(text); }
      case Comment =>
      case Element(tag, _, kids) =>
        if tag.Inline? { PlainKidsTrim(kids); } else { StaysElement(n, true); }
    }
  }

  lemma StaysElement(n: Html, pre: bool)
    requires n.Element?
    ensures Plain(n, pre).Element?
  {
  }

  lemma {:induction false} PlainKidsTrim(kids: seq<Html>)
    ensures AllTrim(PlainKids(kids, true))
    decreases SizeAll(kids), 2
  {
    hide PlainOf, JoinAll;
    if kids != [] {
      PlainKidsTrim(kids[..|kids| - 1]);
      PlainOfTrims(kids[|kids| - 1]);
      JoinAllTrims(PlainKids(kids[..|kids| - 1], true), PlainOf(kids[|kids| - 1], true));
    }
  }

  lemma JoinWalks(kids: seq<Html>, n: Html, ctx: Context, num: Numbering)
    requires ctx.pre ==> AllTrim(kids) && TrimOne(n)
    ensures SameWalk(WalkKids(Join(kids, n), ctx, num), WalkKids(kids + [n], ctx, num))
  {
    hide WalkKids, Atoms, Trim, CutKeeps;
    if n.Text? && kids != [] && kids[|kids| - 1].Text? {
      var init, z := kids[..|kids| - 1], kids[|kids| - 1].text;
      if ctx.pre {
        assert TrimOne(kids[|kids| - 1]);
        TrimsJoin(z, n.text);
      }
      assert kids + [n] == init + [Text(z), n];
      TextsWalk(z, n.text, ctx, WalkKids(init, ctx, num).numbering);
      SameAppend(init, init, [Text(z + n.text)], [Text(z), n], ctx, ctx, num);
    }
  }

  lemma {:induction false} JoinAllWalks(kids: seq<Html>, more: seq<Html>, ctx: Context, num: Numbering)
    requires ctx.pre ==> AllTrim(kids) && AllTrim(more)
    ensures SameWalk(WalkKids(JoinAll(kids, more), ctx, num), WalkKids(kids + more, ctx, num))
    decreases |more|
  {
    hide WalkKids, WalkNode, Atoms, Join;
    if more == [] {
      assert kids + more == kids;
    } else {
      var init, last := more[..|more| - 1], more[|more| - 1];
      JoinAllWalks(kids, init, ctx, num);
      if ctx.pre {
        assert TrimOne(last);
        JoinAllTrims(kids, init);
      }
      JoinWalks(JoinAll(kids, init), last, ctx, num);
      SameSnoc(JoinAll(kids, init), kids + init, last, last, ctx, ctx, num);
      assert kids + more == kids + init + [last];
    }
  }

  /** The plain form of children that are all walked is walked as they are. */
  lemma {:induction false} PlainKidsWalk(kids: seq<Html>, p: Context, q: Context, num: Numbering)
    requires Alike(p, q)
    ensures SameWalk(WalkKids(PlainKids(kids, p.pre), p, num), WalkKids(kids, q, num))
    decreases SizeAll(kids), 2
  {
    hide WalkKids, WalkNode, Atoms, PlainOf, JoinAll;
    if kids == [] {
      NoKids(p, q, num);
    } else {
      var init, last := kids[..|kids| - 1], kids[|kids| - 1];
      PlainKidsWalk(init, p, q, num);
      PlainOfWalks(last, p, q, WalkKids(init, q, num).numbering);
      SameAppend(PlainKids(init, p.pre), init, PlainOf(last, p.pre), [last], p, q, num);
      if p.pre {
        PlainKidsTrim(init);
        PlainOfTrims(last);
      }
      JoinAllWalks(PlainKids(init, p.pre), PlainOf(last, p.pre), p, num);
      assert kids == init + [last];
    }
  }

  lemma NoKids(p: Context, q: Context, num: Numbering)
    ensures SameWalk(WalkKids([], p, num), WalkKids([], q, num))
  {
  }

  lemma {:induction false} PlainOfWalks(n: Html, p: Context, q: Context, num: Numbering)
    requires Alike(p, q)
    ensures SameWalk(WalkKids(PlainOf(n, p.pre), p, num), WalkKids([n], q, num))
    decreases Size(n), 1
  {
    hide WalkKids, WalkNode, Atoms, Plain, PlainKids;
    OneKid(n, q, num);
    match n {
      case Text(text) =>
        if p.pre { BodyWalks(text, p, num); }
        KidsAlike([n], p, q, num);
      case Comment => CommentWalks(p, q, num);
      case Element(tag, _, kids) =>
        if tag.Inline? {
          PlainKidsWalk(kids, p, Inside(q, n), num);
          InlineWalks(n, q, num);
        } else {
          OneKid(Plain(n, p.pre), p, num);
          PlainWalks(n, p, q, num);
        }
    }
  }

  lemma BodyWalks(text: string, ctx: Context, num: Numbering)
    requires ctx.pre
    ensures SameWalk(WalkKids(PlainOf(Text(text), true), ctx, num), WalkKids([Text(text)], ctx, num))
  {
    hide Atoms, Pieces, Split, Letters, TextTokens, Body;
    OneKid(Text(text), ctx, num);
    AtomsOne(TextNode(text, ctx.format, true));
    BodyLetters(text);
    if Body(text) == "" {
      NoLetters();
      NoEvents();
    } else {
      OneKid(Text(Body(text)), ctx, num);
      AtomsOne(TextNode(Body(text), ctx.format, true));
      BodyLetters(Body(text));
      BodyIsTrim(text);
      TrimIsBody(Body(text));
    }
  }

  lemma NoEvents()
    ensures Atoms([]) == [] && Pieces([]) == []
  {
  }

  lemma CommentWalks(p: Context, q: Context, num: Numbering)
    ensures SameWalk(WalkKids([], p, num), WalkNode(Comment, q, num))
  {
  }

  lemma InlineWalks(n: Html, ctx: Context, num: Numbering)
    requires Is(n, Inline)
    ensures WalkNode(n, ctx, num) == WalkKids(n.kids, Inside(ctx, n), num)
  {
  }

  lemma {:induction false} PlainEachWalk(kids: seq<Html>, p: Context, q: Context, num: Numbering)
    requires Alike(p, q)
    ensures SameWalk(WalkKids(PlainEach(kids, p.pre), p, num), WalkKids(kids, q, num))
    decreases SizeAll(kids), 2
  {
    hide WalkKids, WalkNode, Atoms, Plain;
    if kids == [] {
      NoKids(p, q, num);
    } else {
      var init, last := kids[..|kids| - 1], kids[|kids| - 1];
      PlainEachWalk(init, p, q, num);
      PlainWalks(last, p, q, WalkKids(init, q, num).numbering);
      SameSnoc(PlainEach(init, p.pre), init, Plain(last, p.pre), last, p, q, num);
      assert kids == init + [last];
    }
  }

  /** A node's plain form is walked as the node is. */
  lemma {:induction false} PlainWalks(n: Html, p: Context, q: Context, num: Numbering)
    requires Alike(p, q)
    ensures SameWalk(WalkNode(Plain(n, p.pre), p, num), WalkNode(n, q, num))
    decreases Size(n), 0
  {
    hide WalkKids, WalkBlock, WalkList, WalkItem, WalkTable, PlainKids, PlainEach;
    if !n.Element? {
      NodeAlike(n, p, q, num);
    } else {
      var m := Plain(n, p.pre);
      var a, b := Inside(p, m), Inside(q, n);
      match n.tag {
        case Skipped =>
        case LineBreakTag =>
        case Image =>
        case RuleTag =>
        case TableTag => PlainTableWalks(n.kids, a, b, num);
        case Unordered => PlainListWalks(n.kids, a, b, num, false, 1);
        case Ordered(start) => PlainListWalks(n.kids, a, b, num, true, Max(1, start));
        case Item => PlainItemWalks(n.kids, a, b, num);
        case BlockTag(pre) =>
          PlainBlockWalks(n.kids, if pre then a.(pre := true) else a, if pre then b.(pre := true) else b, num);
        case Caption => PlainBlockWalks(n.kids, a, b, num);
        case RowGroup => PlainEachWalk(n.kids, a, b, num);
        case Row => PlainEachWalk(n.kids, a, b, num);
        case _ => PlainKidsWalk(n.kids, a, b, num);
      }
    }
  }

  lemma {:induction false} PlainBlockWalks(kids: seq<Html>, p: Context, q: Context, num: Numbering)
    requires Alike(p, q)
    ensures SameWalk(WalkBlock(PlainKids(kids, p.pre), p, num), WalkBlock(kids, q, num))
    decreases SizeAll(kids), 3
  {
    PlainKidsWalk(kids, p, q, num);
    SameWrapped(Boundary, WalkKids(PlainKids(kids, p.pre), p, num).events, WalkKids(kids, q, num).events, Boundary, Boundary);
  }

  lemma {:induction false} PlainElements(kids: seq<Html>, pre: bool)
    ensures Elements(PlainEach(kids, pre)) == PlainEach(Elements(kids), pre)
  {
    hide Plain;
    if kids != [] {
      var init, last := kids[..|kids| - 1], kids[|kids| - 1];
      PlainElements(init, pre);
      PlainKeepsTag(last, pre);
      PlainEachSnoc(Elements(init), last, pre);
      assert PlainEach(kids, pre)[..|kids| - 1] == PlainEach(init, pre);
    }
  }

  lemma PlainEachSnoc(kids: seq<Html>, n: Html, pre: bool)
    ensures PlainEach(kids + [n], pre) == PlainEach(kids, pre) + [Plain(n, pre)]
  {
    assert (kids + [n])[..|kids|] == kids;
  }

  lemma PlainKeepsTag(n: Html, pre: bool)
    ensures Plain(n, pre).Element? <==> n.Element?
    ensures n.Element? ==> Plain(n, pre).tag == n.tag
  {
  }

  lemma {:induction false} PlainListWalks(kids: seq<Html>, p: Context, q: Context, num: Numbering, ordered: bool, start: nat)
    requires Alike(p, q)
    ensures SameWalk(WalkList(PlainEach(kids, p.pre), p, num, ordered, start), WalkList(kids, q, num, ordered, start))
    decreases SizeAll(kids), 3
  {
    var (id, numbered) := NewList(num, ordered, start);
    var a := p.(level := Deeper(p.level), list := Some(id));
    var b := q.(level := Deeper(q.level), list := Some(id));
    PlainElements(kids, p.pre);
    PlainEachWalk(Elements(kids), a, b, numbered);
    SameWrapped(ListBegin(id, ordered, start), WalkKids(PlainEach(Elements(kids), p.pre), a, numbered).events,
                WalkKids(Elements(kids), b, numbered).events, ListEnd, ListEnd);
  }

  lemma {:induction false} PlainItemWalks(kids: seq<Html>, p: Context, q: Context, num: Numbering)
    requires Alike(p, q)
    ensures SameWalk(WalkItem(PlainKids(kids, p.pre), p, num), WalkItem(kids, q, num))
    decreases SizeAll(kids), 3
  {
    hide WalkKids, Atoms, PlainKids;
    var plain := PlainKids(kids, p.pre);
    if p.list.Some? {
      PlainKidsWalk(kids, p, q, num);
      SameWrapped(ItemBegin(Mark(p)), WalkKids(plain, p, num).events, WalkKids(kids, q, num).events, ItemEnd, ItemEnd);
    } else {
      var (id, numbered) := NewList(num, false, 1);
      var a, b := p.(level := 0, list := Some(id)), q.(level := 0, list := Some(id));
      PlainKidsWalk(kids, a, b, numbered);
      var x, y := WalkKids(plain, a, numbered).events, WalkKids(kids, b, numbered).events;
      SameWrapped(ItemBegin(Mark(a)), x, y, ItemEnd, ItemEnd);
      SameWrapped(ListBegin(id, false, 1), [ItemBegin(Mark(a))] + x + [ItemEnd], [ItemBegin(Mark(a))] + y + [ItemEnd],
                  ListEnd, ListEnd);
    }
  }

  // ---- Tables ----

  lemma {:induction false} PlainCaptions(kids: seq<Html>, pre: bool)
    ensures Captions(PlainEach(kids, pre)) == PlainEach(Captions(kids), pre)
  {
    hide Plain;
    if kids != [] {
      var init, last := kids[..|kids| - 1], kids[|kids| - 1];
      PlainCaptions(init, pre);
      PlainKeepsTag(last, pre);
      PlainEachSnoc(Captions(init), last, pre);
      assert PlainEach(kids, pre)[..|kids| - 1] == PlainEach(init, pre);
    }
  }

  lemma {:induction false} PlainCells(kids: seq<Html>, pre: bool)
    ensures Cells(PlainEach(kids, pre)) == PlainEach(Cells(kids), pre)
  {
    hide Plain;
    if kids != [] {
      var init, last := kids[..|kids| - 1], kids[|kids| - 1];
      PlainCells(init, pre);
      PlainKeepsTag(last, pre);
      PlainEachSnoc(Cells(init), last, pre);
      assert PlainEach(kids, pre)[..|kids| - 1] == PlainEach(init, pre);
    }
  }

  function PlainRows(rows: seq<seq<Html>>, pre: bool): (out: seq<seq<Html>>)
    ensures |out| == |rows|
  {
    if rows == [] then [] else PlainRows(rows[..|rows| - 1], pre) + [PlainEach(rows[|rows| - 1], pre)]
  }

  lemma {:induction false} PlainRowsConcat(a: seq<seq<Html>>, b: seq<seq<Html>>, pre: bool)
    ensures PlainRows(a + b, pre) == PlainRows(a, pre) + PlainRows(b, pre)
  {
    hide PlainEach;
    if b == [] {
      assert a + b == a;
    } else {
      PlainRowsConcat(a, b[..|b| - 1], pre);
      assert (a + b)[..|a + b| - 1] == a + b[..|b| - 1];
    }
  }

  lemma PlainRow(n: Html, pre: bool)
    requires n.Element? && (n.tag.Row? || n.tag.RowGroup?)
    ensures Plain(n, pre) == Element(n.tag, PLAIN, PlainEach(n.kids, pre))
  {
  }

  lemma PlainRowsOne(row: seq<Html>, pre: bool)
    ensures PlainRows([row], pre) == [PlainEach(row, pre)]
  {
    assert [row][..0] == [];
  }

  lemma {:induction false} PlainGroupRows(kids: seq<Html>, pre: bool)
    ensures GroupRows(PlainEach(kids, pre)) == PlainRows(GroupRows(kids), pre)
  {
    hide Plain, PlainRows, Cells;
    if kids == [] {
      NoPlainRows(pre);
    } else {
      var init, last := kids[..|kids| - 1], kids[|kids| - 1];
      PlainGroupRows(init, pre);
      PlainKeepsTag(last, pre);
      assert PlainEach(kids, pre)[..|kids| - 1] == PlainEach(init, pre);
      if Is(last, Row) {
        PlainRow(last, pre);
        PlainCells(last.kids, pre);
        PlainRowsOne(Cells(last.kids), pre);
        PlainRowsConcat(GroupRows(init), [Cells(last.kids)], pre);
      } else {
        assert GroupRows(init) + [] == GroupRows(init);
      }
    }
  }

  lemma NoPlainRows(pre: bool)
    ensures PlainRows([], pre) == []
  {
  }

  /** The rows a table's child brings. */
  lemma PlainChildRows(last: Html, pre: bool)
    ensures ChildRows(Plain(last, pre)) == PlainRows(ChildRows(last), pre)
  {
    hide Plain, PlainRows, Cells, GroupRows, PlainEach;
    PlainKeepsTag(last, pre);
    if Is(last, Row) {
      PlainRow(last, pre);
      PlainCells(last.kids, pre);
      PlainRowsOne(Cells(last.kids), pre);
    } else if Is(last, RowGroup) {
      PlainRow(last, pre);
      PlainGroupRows(last.kids, pre);
    } else {
      NoPlainRows(pre);
    }
  }

  lemma NoTableRows(pre: bool)
    ensures Rows(PlainEach([], pre)) == PlainRows(Rows([]), pre)
  {
  }

  lemma RowsSnoc(kids: seq<Html>, last: Html)
    ensures Rows(kids + [last]) == Rows(kids) + ChildRows(last)
  {
    assert (kids + [last])[..|kids|] == kids;
  }

  lemma {:induction false} PlainTableRows(kids: seq<Html>, pre: bool)
    ensures Rows(PlainEach(kids, pre)) == PlainRows(Rows(kids), pre)
  {
    hide Plain, PlainRows, ChildRows, Rows, PlainEach;
    if kids == [] {
      NoTableRows(pre);
    } else {
      var init, last := kids[..|kids| - 1], kids[|kids| - 1];
      PlainTableRows(init, pre);
      PlainChildRows(last, pre);
      PlainRowsConcat(Rows(init), ChildRows(last), pre);
      RowsSnoc(init, last);
      RowsSnoc(PlainEach(init, pre), Plain(last, pre));
      PlainEachSnoc(init, last, pre);
      assert kids == init + [last];
    }
  }

  lemma {:induction false} PlainFlat(rows: seq<seq<Html>>, pre: bool)
    ensures Flat(PlainRows(rows, pre)) == PlainEach(Flat(rows), pre)
  {
    if rows != [] {
      var init, last := rows[..|rows| - 1], rows[|rows| - 1];
      PlainFlat(init, pre);
      PlainEachConcat(Flat(init), last, pre);
      assert PlainRows(rows, pre)[..|rows| - 1] == PlainRows(init, pre);
    }
  }

  lemma {:induction false} PlainEachConcat(a: seq<Html>, b: seq<Html>, pre: bool)
    ensures PlainEach(a + b, pre) == PlainEach(a, pre) + PlainEach(b, pre)
  {
    hide Plain;
    if b == [] {
      assert a + b == a;
    } else {
      PlainEachConcat(a, b[..|b| - 1], pre);
      assert (a + b)[..|a + b| - 1] == a + b[..|b| - 1];
    }
  }

  lemma {:induction false} PlainRowsAre(rows: seq<seq<Html>>, pre: bool)
    ensures forall i | 0 <= i < |rows| :: PlainRows(rows, pre)[i] == PlainEach(rows[i], pre)
  {
    hide PlainEach;
    if rows != [] { PlainRowsAre(rows[..|rows| - 1], pre); }
  }

  lemma PlainSpans(rows: seq<seq<Html>>, pre: bool)
    ensures Spans(PlainRows(rows, pre)) == Spans(rows)
  {
    hide PlainEach, PlainRows, Plain;
    PlainRowsAre(rows, pre);
    forall i | 0 <= i < |rows| ensures SpansOf(PlainEach(rows[i], pre)) == SpansOf(rows[i]) {
      PlainEachIs(rows[i], pre);
      forall k | 0 <= k < |rows[i]| ensures IsCell(Plain(rows[i][k], pre)) <==> IsCell(rows[i][k]) { PlainKeepsTag(rows[i][k], pre); }
      forall k | 0 <= k < |rows[i]| && IsCell(rows[i][k]) ensures Plain(rows[i][k], pre).tag == rows[i][k].tag {
        PlainKeepsTag(rows[i][k], pre);
      }
    }
  }

  /** The plain form of a table has the same grid. */
  lemma PlainGrid(kids: seq<Html>, pre: bool)
    ensures var plain := PlainEach(kids, pre);
            && TablePlaces(plain) == TablePlaces(kids) && |Rows(plain)| == |Rows(kids)|
            && Flat(Rows(plain)) == PlainEach(Flat(Rows(kids)), pre) && Captions(plain) == PlainEach(Captions(kids), pre)
  {
    hide Rows, PlainEach, Flat, Spans, Captions;
    PlainTableRows(kids, pre);
    PlainSpans(Rows(kids), pre);
    PlainFlat(Rows(kids), pre);
    PlainCaptions(kids, pre);
  }

  lemma {:induction false} PlainTableWalks(kids: seq<Html>, p: Context, q: Context, num: Numbering)
    requires Alike(p, q)
    ensures SameWalk(WalkTable(PlainEach(kids, p.pre), p, num), WalkTable(kids, q, num))
    decreases SizeAll(kids), 4
  {
    hide Rows, Flat, Captions, WalkKids, WalkCells, Atoms, PlainEach, TablePlaces;
    var plain := PlainEach(kids, p.pre);
    PlainGrid(kids, p.pre);
    var places := TablePlaces(kids);
    if Rows(kids) == [] {
      PlainEachWalk(kids, p, q, num);
    } else if TableGrid.Width(places) != 0 {
      RowsSmaller(kids);
      OnePlaceEach(kids);
      OnePlaceEach(plain);
      PlainEachWalk(Captions(kids), p, q, num);
      var a, b := WalkKids(Captions(plain), p, num), WalkKids(Captions(kids), q, num);
      PlainCellsWalk(Flat(Rows(kids)), places, p, q, a.numbering);
      var height, width := |Rows(kids)|, TableGrid.Width(places);
      SameWrapped(Boundary, a.events, b.events,
                  TableBlock(height, width, WalkCells(Flat(Rows(plain)), places, p, a.numbering).0),
                  TableBlock(height, width, WalkCells(Flat(Rows(kids)), places, q, b.numbering).0));
    }
  }

  ghost predicate OnlyCells(cells: seq<Html>) {
    forall i | 0 <= i < |cells| :: IsCell(cells[i])
  }

  lemma PlainOnlyCells(cells: seq<Html>, pre: bool)
    requires OnlyCells(cells)
    ensures OnlyCells(PlainEach(cells, pre))
  {
    PlainEachIs(cells, pre);
    forall i | 0 <= i < |cells| ensures IsCell(PlainEach(cells, pre)[i]) { PlainKeepsTag(cells[i], pre); }
  }

  lemma {:induction false} PlainCellsWalk(cells: seq<Html>, places: seq<Placement>, p: Context, q: Context, num: Numbering)
    requires |cells| <= |places| && OnlyCells(cells) && OnlyCells(PlainEach(cells, p.pre))
    requires Alike(p, q)
    ensures AtomsOfCells(WalkCells(PlainEach(cells, p.pre), places, p, num).0) == AtomsOfCells(WalkCells(cells, places, q, num).0)
    ensures WalkCells(PlainEach(cells, p.pre), places, p, num).1 == WalkCells(cells, places, q, num).1
    decreases SizeAll(cells), 3
  {
    hide WalkKids, WalkCells, Atoms, AtomsOfCells, PlainKids, PlainEach, Plain;
    if cells == [] {
      NoPlainCells(places, p, q, num);
    } else {
      var k := |cells| - 1;
      var init, cell := cells[..k], cells[k];
      assert IsCell(cell);
      assert Size(cell) == 1 + SizeAll(cell.kids);
      PlainOnlyCells(init, p.pre);
      PlainCellsWalk(init, places, p, q, num);
      PlainCell(cell, p.pre);
      var plain := Plain(cell, p.pre);
      PlainEachSnoc(init, cell, p.pre);
      assert cells == init + [cell];
      var (a, numbered) := WalkCells(PlainEach(init, p.pre), places, p, num);
      var (b, _) := WalkCells(init, places, q, num);
      PlainKidsWalk(cell.kids, InsideCell(p, plain), InsideCell(q, cell), numbered);
      CellsSnoc(PlainEach(init, p.pre), plain, places, p, num);
      CellsSnoc(init, cell, places, q, num);
    }
  }

  lemma NoPlainCells(places: seq<Placement>, p: Context, q: Context, num: Numbering)
    ensures WalkCells(PlainEach([], p.pre), places, p, num) == WalkCells([], places, q, num)
  {
  }

  lemma CellsSnoc(cells: seq<Html>, cell: Html, places: seq<Placement>, ctx: Context, num: Numbering)
    requires |cells| < |places| && OnlyCells(cells) && IsCell(cell) && OnlyCells(cells + [cell])
    ensures var (before, numbered) := WalkCells(cells, places, ctx, num);
            var inner := WalkKids(cell.kids, InsideCell(ctx, cell), numbered);
            && AtomsOfCells(WalkCells(cells + [cell], places, ctx, num).0)
               == AtomsOfCells(before) + [CellAtoms(places[|cells|], Atoms(inner.events))]
            && WalkCells(cells + [cell], places, ctx, num).1 == inner.numbering
  {
    hide WalkKids, Atoms, AtomsOfCells;
    assert (cells + [cell])[..|cells|] == cells;
    var (before, numbered) := WalkCells(cells, places, ctx, num);
    AtomsOfCellsSnoc(before, places[|cells|], WalkKids(cell.kids, InsideCell(ctx, cell), numbered).events);
  }

  lemma PlainCell(cell: Html, pre: bool)
    requires IsCell(cell)
    ensures Plain(cell, pre) == Element(cell.tag, PLAIN, PlainKids(cell.kids, pre))
  {
  }

  // ---- The document ----

  /** Two trees with the same plain form make the same document, whatever the inline tags, formats,
      comments and cuts of each. */
  lemma PlainTreeDecides(a: seq<Html>, b: seq<Html>)
    requires PlainKids(a, false) == PlainKids(b, false)
    ensures DocumentOf(a) == DocumentOf(b)
  {
    hide PlainKids, WalkKids, PageBlocks, Atoms;
    PlainKidsWalk(a, TOP, TOP, NO_LISTS);
    PlainKidsWalk(b, TOP, TOP, NO_LISTS);
    PageText(WalkKids(a, TOP, NO_LISTS).events);
    PageText(WalkKids(b, TOP, NO_LISTS).events);
    SameAtomsSameText(WalkKids(a, TOP, NO_LISTS).events, WalkKids(b, TOP, NO_LISTS).events);
  }

  /** At any depth: an inline tag taken away, two running texts joined or a comment dropped, among
      the children of an element that walks them all, keeps the document. */
  lemma RecutKeepsDocument(a: seq<Html>, b: seq<Html>)
    requires Recut(a, b, true, false)
    ensures DocumentOf(a) == DocumentOf(b)
  {
    RecutIsPlain(a, b, true, false);
    PlainTreeDecides(a, b);
  }

  // ---- Preformatted text ----

  lemma {:induction false} CollectConcat(g: Gathered, a: seq<Event>, b: seq<Event>)
    ensures Collect(g, a + b) == Collect(Collect(g, a), b)
    decreases |b|
  {
    hide CollectOne;
    if b == [] {
      assert a + b == a;
    } else {
      CollectConcat(g, a, b[..|b| - 1]);
      assert (a + b)[..|a + b| - 1] == a + b[..|b| - 1];
    }
  }

  lemma OneEvent(g: Gathered, e: Event)
    ensures Collect(g, [e]) == CollectOne(g, e)
  {
    assert [e][..0] == [];
  }

  lemma FinishTwice(g: Gathered)
    ensures Finish(Finish(g)).done == Finish(g).done && Finish(NOTHING) == NOTHING
  {
  }

  lemma BlockAlone(es: seq<Event>)
    ensures PageBlocks([Boundary] + es + [Boundary]) == PageBlocks(es)
  {
    CollectConcat(NOTHING, [Boundary] + es, [Boundary]);
    CollectConcat(NOTHING, [Boundary], es);
    OneEvent(NOTHING, Boundary);
    OneEvent(Collect(NOTHING, es), Boundary);
    FinishTwice(Collect(NOTHING, es));
  }

  lemma PreAlone(style: Format, kids: seq<Html>)
    ensures var ctx := Inside(TOP, Element(BlockTag(true), style, kids)).(pre := true);
            DocumentOf([Element(BlockTag(true), style, kids)]) == PageBlocks(WalkKids(kids, ctx, NO_LISTS).events)
  {
    hide PageBlocks, WalkKids;
    var pre := Element(BlockTag(true), style, kids);
    var ctx := Inside(TOP, pre).(pre := true);
    OneKid(pre, TOP, NO_LISTS);
    PageText(WalkKids([pre], TOP, NO_LISTS).events);
    BlockAlone(WalkKids(kids, ctx, NO_LISTS).events);
  }

  lemma TextNodes(a: string, b: string, ctx: Context)
    ensures WalkKids([Text(a)], ctx, NO_LISTS).events == [TextNode(a, ctx.format, ctx.pre)]
    ensures WalkKids([Text(a), Text(b)], ctx, NO_LISTS).events == [TextNode(a, ctx.format, ctx.pre), TextNode(b, ctx.format, ctx.pre)]
  {
    OneKid(Text(a), ctx, NO_LISTS);
    assert [Text(a), Text(b)][..1] == [Text(a)];
  }

  /** Preformatted text stays as it is where a tag begins in it exactly when no line break is lost at
      the cut. */
  lemma TagInPreformatted(style: Format, inline: Format, a: string, b: string)
    ensures DocumentOf([Element(BlockTag(true), style, [Text(a), Element(Inline, inline, [Text(b)])])])
            == DocumentOf([Element(BlockTag(true), style, [Text(a + b)])])
            <==> CutKeeps(a, b)
  {
    var tagged, cut := [Text(a), Element(Inline, inline, [Text(b)])], [Text(a), Text(b)];
    var pre := BlockTag(true);
    assert UnwrapsAt(tagged, cut, 1);
    assert RecutBelow([Element(pre, style, tagged)], [Element(pre, style, cut)], 0, false);
    RecutKeepsDocument([Element(pre, style, tagged)], [Element(pre, style, cut)]);
    hide DocumentOf, PageBlocks, WalkKids, CutKeeps, RecutBelow, Recut;
    PreAlone(style, cut);
    PreAlone(style, [Text(a + b)]);
    var ctx := Inside(TOP, Element(pre, style, cut)).(pre := true);
    TextNodes(a, b, ctx);
    TextNodes(a + b, b, ctx);
    PreformattedCutExactly(a, b, ctx.format, ctx.format, ctx.format);
  }

  // ---- A list's own children ----

  lemma {:induction false} KeptConcat(a: seq<Html>, b: seq<Html>)
    ensures KeptAll(a + b) == KeptAll(a) + KeptAll(b)
  {
    hide Kept;
    if b == [] {
      assert a + b == a;
    } else {
      KeptConcat(a, b[..|b| - 1]);
      assert (a + b)[..|a + b| - 1] == a + b[..|b| - 1];
    }
  }

  lemma {:induction false} ElementsConcat(a: seq<Html>, b: seq<Html>)
    ensures Elements(a + b) == Elements(a) + Elements(b)
  {
    hide SizeAll, Size;
    if b == [] {
      assert a + b == a;
    } else {
      var init, last := b[..|b| - 1], b[|b| - 1];
      ElementsConcat(a, init);
      assert (a + b)[..|a + b| - 1] == a + init;
      assert Elements(a) + Elements(init) + [last] == Elements(a) + (Elements(init) + [last]);
    }
  }

  lemma KeptOne(n: Html)
    ensures KeptAll([n]) == Kept(n)
  {
    assert [n][..0] == [];
  }

  lemma {:induction false} KeptOfElements(kids: seq<Html>)
    ensures multiset(KeptAll(kids)) == multiset(KeptAll(Elements(kids))) + multiset(LooseText(kids))
  {
    if kids != [] {
      var init, last := kids[..|kids| - 1], kids[|kids| - 1];
      KeptOfElements(init);
      KeptConcat(Elements(init), [last]);
      KeptOne(last);
      hide KeptAll, Kept, TreeInk;
      NotElement(last);
    }
  }

  lemma NotElement(n: Html)
    ensures !n.Element? ==> Kept(n) == TreeInk(n)
  {
  }

  predicate IsList(tag: Tag) {
    tag.Unordered? || tag.Ordered?
  }

  lemma KeptOfList(list: Tag, style: Format, kids: seq<Html>)
    requires IsList(list)
    ensures KeptAll([Element(list, style, kids)]) == KeptAll(Elements(kids))
  {
    KeptOne(Element(list, style, kids));
  }

  lemma KeptOfInline(before: seq<Html>, style: Format, inner: seq<Html>, after: seq<Html>)
    ensures KeptAll(Elements(before + [Element(Inline, style, inner)] + after))
            == KeptAll(Elements(before)) + KeptAll(inner) + KeptAll(Elements(after))
  {
    var e := Element(Inline, style, inner);
    ElementsConcat(before + [e], after);
    ElementsConcat(before, [e]);
    assert [e][..0] == [] && Elements([e]) == [e];
    KeptConcat(Elements(before) + [e], Elements(after));
    KeptConcat(Elements(before), [e]);
    KeptOne(e);
  }

  /** Straight inside a list an inline tag matters: taken away, the text straight inside it is lost,
      and nothing else. */
  lemma UnwrapInListLoses(list: Tag, s: Format, before: seq<Html>, style: Format, inner: seq<Html>, after: seq<Html>)
    requires IsList(list)
    ensures var wrapped := [Element(list, s, before + [Element(Inline, style, inner)] + after)];
            var unwrapped := [Element(list, s, before + inner + after)];
            multiset(BlocksInk(DocumentOf(wrapped))) == multiset(BlocksInk(DocumentOf(unwrapped))) + multiset(LooseText(inner))
  {
    hide KeptAll, DocumentOf, BlocksInk, Elements, LooseText;
    var wrapped := [Element(list, s, before + [Element(Inline, style, inner)] + after)];
    var unwrapped := [Element(list, s, before + inner + after)];
    EveryCharacterOnce(wrapped);
    EveryCharacterOnce(unwrapped);
    KeptOfList(list, s, before + [Element(Inline, style, inner)] + after);
    KeptOfList(list, s, before + inner + after);
    KeptOfInline(before, style, inner, after);
    ElementsConcat(before + inner, after);
    ElementsConcat(before, inner);
    KeptConcat(Elements(before) + Elements(inner), Elements(after));
    KeptConcat(Elements(before), Elements(inner));
    KeptOfElements(inner);
  }

  // ---- A table's, a row group's and a row's own children ----

  /** What a table keeps: all of its content if it has no rows, nothing if they have no cells. */
  function KeptOfTable(kids: seq<Html>): string {
    if Rows(kids) == [] then KeptAll(kids)
    else if Flat(Rows(kids)) == [] then ""
    else KeptAll(Captions(kids)) + KeptAll(Flat(Rows(kids)))
  }

  lemma TableKeeps(style: Format, kids: seq<Html>)
    ensures multiset(BlocksInk(DocumentOf([Element(TableTag, style, kids)]))) == multiset(KeptOfTable(kids))
  {
    hide BlocksInk, DocumentOf, Rows, Flat, Captions, TablePlaces;
    var table := Element(TableTag, style, kids);
    EveryCharacterOnce([table]);
    KeptOne(table);
    NoColumns(kids);
  }

  lemma {:induction false} CaptionsConcat(a: seq<Html>, b: seq<Html>)
    ensures Captions(a + b) == Captions(a) + Captions(b)
  {
    hide SizeAll, Size;
    if b == [] {
      assert a + b == a;
    } else {
      var init, last := b[..|b| - 1], b[|b| - 1];
      CaptionsConcat(a, init);
      assert (a + b)[..|a + b| - 1] == a + init;
      assert Captions(a) + Captions(init) + [last] == Captions(a) + (Captions(init) + [last]);
    }
  }

  lemma {:induction false} CellsConcat(a: seq<Html>, b: seq<Html>)
    ensures Cells(a + b) == Cells(a) + Cells(b)
  {
    hide SizeAll, Size;
    if b == [] {
      assert a + b == a;
    } else {
      var init, last := b[..|b| - 1], b[|b| - 1];
      CellsConcat(a, init);
      assert (a + b)[..|a + b| - 1] == a + init;
      assert Cells(a) + Cells(init) + [last] == Cells(a) + (Cells(init) + [last]);
    }
  }

  lemma {:induction false} RowsConcat(a: seq<Html>, b: seq<Html>)
    ensures Rows(a + b) == Rows(a) + Rows(b)
  {
    hide ChildRows, Rows;
    if b == [] {
      assert a + b == a;
      NoRowsOf();
    } else {
      var init, last := b[..|b| - 1], b[|b| - 1];
      RowsConcat(a, init);
      RowsSnoc(a + init, last);
      RowsSnoc(init, last);
      assert a + b == a + init + [last] && b == init + [last];
    }
  }

  lemma NoRowsOf()
    ensures Rows([]) == []
  {
  }

  lemma {:induction false} GroupRowsConcat(a: seq<Html>, b: seq<Html>)
    ensures GroupRows(a + b) == GroupRows(a) + GroupRows(b)
  {
    hide Cells;
    if b == [] {
      assert a + b == a;
    } else {
      GroupRowsConcat(a, b[..|b| - 1]);
      assert (a + b)[..|a + b| - 1] == a + b[..|b| - 1];
    }
  }

  /** An inline element is nothing a table, a row group or a row looks for. */
  lemma InlineIsNone(e: Html)
    requires Is(e, Inline)
    ensures Rows([e]) == [] && Captions([e]) == [] && Cells([e]) == [] && GroupRows([e]) == []
  {
    assert [e][..0] == [];
  }

  lemma TableParts(before: seq<Html>, middle: seq<Html>, after: seq<Html>)
    ensures Captions(before + middle + after) == Captions(before) + Captions(middle) + Captions(after)
    ensures Flat(Rows(before + middle + after)) == Flat(Rows(before)) + Flat(Rows(middle)) + Flat(Rows(after))
    ensures Rows(before + middle + after) == Rows(before) + Rows(middle) + Rows(after)
  {
    hide Rows, Captions, Flat;
    CaptionsConcat(before + middle, after);
    CaptionsConcat(before, middle);
    RowsConcat(before + middle, after);
    RowsConcat(before, middle);
    FlatConcat(Rows(before) + Rows(middle), Rows(after));
    FlatConcat(Rows(before), Rows(middle));
  }

  lemma KeptThree(a: seq<Html>, b: seq<Html>, c: seq<Html>)
    ensures KeptAll(a + b + c) == KeptAll(a) + KeptAll(b) + KeptAll(c)
    ensures multiset(KeptAll(a + b + c)) == multiset(KeptAll(a + c)) + multiset(KeptAll(b))
  {
    hide KeptAll;
    KeptConcat(a + b, c);
    KeptConcat(a, b);
    KeptConcat(a, c);
  }

  /** Straight inside a table an inline tag hides the rows and captions in it, and what else it
      holds is not looked for either way: taken away, exactly their content is gained. Only where
      the table has no cells without it is it another matter: a table without rows is walked child
      by child, and one whose rows have no cells writes nothing. */
  lemma UnwrapInTable(s: Format, before: seq<Html>, style: Format, inner: seq<Html>, after: seq<Html>)
    ensures var wrapped, unwrapped := before + [Element(Inline, style, inner)] + after, before + inner + after;
            var shown := multiset(BlocksInk(DocumentOf([Element(TableTag, s, wrapped)])));
            var bare := multiset(BlocksInk(DocumentOf([Element(TableTag, s, unwrapped)])));
            && (Flat(Rows(wrapped)) != [] ==>
                  bare == shown + multiset(KeptAll(Captions(inner))) + multiset(KeptAll(Flat(Rows(inner)))))
            && (Rows(wrapped) == [] ==> shown == multiset(KeptAll(unwrapped)))
            && (Rows(wrapped) != [] && Flat(Rows(wrapped)) == [] ==> shown == multiset{})
            && (Flat(Rows(wrapped)) == [] ==>
                  bare == if Rows(wrapped) == [] && Rows(inner) == [] then multiset(KeptAll(unwrapped))
                          else if Flat(Rows(inner)) == [] then multiset{}
                          else multiset(KeptAll(Captions(unwrapped))) + multiset(KeptAll(Flat(Rows(inner)))))
  {
    hide *;
    var e := Element(Inline, style, inner);
    var wrapped, unwrapped := before + [e] + after, before + inner + after;
    TableKeeps(s, wrapped);
    TableKeeps(s, unwrapped);
    InlineTag(e);
    InlineIsNone(e);
    TableParts(before, [e], after);
    TableParts(before, inner, after);
    FlatNone();
    KeptOfInlineKids(before, style, inner, after);
    assert Rows(wrapped) == Rows(before) + Rows(after);
    assert Captions(wrapped) == Captions(before) + Captions(after);
    assert Flat(Rows(wrapped)) == Flat(Rows(before)) + Flat(Rows(after));
    TableGains(before, inner, after, wrapped);
    TableCases(wrapped);
    TableCases(unwrapped);
    if Flat(Rows(wrapped)) == [] {
      assert Flat(Rows(unwrapped)) == Flat(Rows(inner));
      assert Rows(wrapped) == [] ==> Rows(unwrapped) == Rows(inner);
      assert Rows(wrapped) != [] ==> |Rows(unwrapped)| > 0;
    } else {
      assert |Flat(Rows(unwrapped))| > 0;
    }
  }

  lemma InlineTag(e: Html)
    requires e.Element? && e.tag == Inline
    ensures Is(e, Inline)
  {
  }

  lemma FlatNone()
    ensures Flat([]) == []
  {
  }

  lemma KeptOfInlineKids(before: seq<Html>, style: Format, inner: seq<Html>, after: seq<Html>)
    ensures KeptAll(before + [Element(Inline, style, inner)] + after) == KeptAll(before + inner + after)
  {
    var e := Element(Inline, style, inner);
    KeptThree(before, [e], after);
    KeptThree(before, inner, after);
    KeptOne(e);
  }

  lemma TableCases(kids: seq<Html>)
    ensures Rows(kids) == [] ==> KeptOfTable(kids) == KeptAll(kids)
    ensures Rows(kids) != [] && Flat(Rows(kids)) == [] ==> multiset(KeptOfTable(kids)) == multiset{}
    ensures Flat(Rows(kids)) != [] ==> multiset(KeptOfTable(kids)) == multiset(KeptAll(Captions(kids))) + multiset(KeptAll(Flat(Rows(kids))))
  {
    hide KeptAll, Captions, Rows;
    FlatNone();
  }

  lemma TableGains(before: seq<Html>, inner: seq<Html>, after: seq<Html>, wrapped: seq<Html>)
    requires Captions(wrapped) == Captions(before) + Captions(after)
    requires Flat(Rows(wrapped)) == Flat(Rows(before)) + Flat(Rows(after))
    ensures multiset(KeptAll(Captions(before + inner + after))) == multiset(KeptAll(Captions(wrapped))) + multiset(KeptAll(Captions(inner)))
    ensures multiset(KeptAll(Flat(Rows(before + inner + after)))) == multiset(KeptAll(Flat(Rows(wrapped)))) + multiset(KeptAll(Flat(Rows(inner))))
  {
    hide KeptAll, Captions, Rows, Flat;
    TableParts(before, inner, after);
    KeptThree(Captions(before), Captions(inner), Captions(after));
    KeptThree(Flat(Rows(before)), Flat(Rows(inner)), Flat(Rows(after)));
  }

  /** One row or row group of a table for another with more cells. */
  lemma ChildGains(s: Format, before: seq<Html>, c: Html, d: Html, after: seq<Html>, gain: seq<Html>)
    requires c.Element? && (c.tag.Row? || c.tag.RowGroup?) && d.Element? && d.tag == c.tag
    requires multiset(KeptAll(Flat(ChildRows(d)))) == multiset(KeptAll(Flat(ChildRows(c)))) + multiset(KeptAll(gain))
    requires |Flat(ChildRows(d))| == |Flat(ChildRows(c))| + |gain| && Rows(before + [c] + after) != []
    ensures var old', new' := Element(TableTag, s, before + [c] + after), Element(TableTag, s, before + [d] + after);
            if Flat(Rows(before + [c] + after)) != [] then
              multiset(BlocksInk(DocumentOf([new']))) == multiset(BlocksInk(DocumentOf([old']))) + multiset(KeptAll(gain))
            else
              && multiset(BlocksInk(DocumentOf([old']))) == multiset{}
              && (gain == [] && Rows(before + [d] + after) != [] ==> multiset(BlocksInk(DocumentOf([new']))) == multiset{})
  {
    hide *;
    TableKeeps(s, before + [c] + after);
    TableKeeps(s, before + [d] + after);
    ChildParts(before, c, after);
    ChildParts(before, d, after);
    KeptThree(Flat(Rows(before)), Flat(ChildRows(c)), Flat(Rows(after)));
    KeptThree(Flat(Rows(before)), Flat(ChildRows(d)), Flat(Rows(after)));
    TableCases(before + [c] + after);
    TableCases(before + [d] + after);
  }

  lemma ChildParts(before: seq<Html>, c: Html, after: seq<Html>)
    requires c.Element? && (c.tag.Row? || c.tag.RowGroup?)
    ensures Captions(before + [c] + after) == Captions(before) + Captions(after)
    ensures Flat(Rows(before + [c] + after)) == Flat(Rows(before)) + Flat(ChildRows(c)) + Flat(Rows(after))
  {
    hide ChildRows, Rows, Flat, Captions;
    TableParts(before, [c], after);
    OneChild(c);
    assert Captions(before) + [] == Captions(before);
  }

  lemma OneChild(c: Html)
    requires c.Element? && (c.tag.Row? || c.tag.RowGroup?)
    ensures Rows([c]) == ChildRows(c) && Captions([c]) == []
  {
    hide ChildRows, Rows;
    NoRowsOf();
    RowsSnoc([], c);
    assert [] + [c] == [c] && [c][..0] == [];
  }

  /** Straight inside a row of a table an inline tag hides the cells in it, and nothing else it holds
      is looked for: taken away, their content is gained. */
  lemma UnwrapInRow(s: Format, before: seq<Html>, r: Format, first: seq<Html>, style: Format, inner: seq<Html>, last: seq<Html>, after: seq<Html>)
    ensures var c := Element(Row, r, first + [Element(Inline, style, inner)] + last);
            var d := Element(Row, r, first + inner + last);
            var shown := multiset(BlocksInk(DocumentOf([Element(TableTag, s, before + [c] + after)])));
            var bare := multiset(BlocksInk(DocumentOf([Element(TableTag, s, before + [d] + after)])));
            && (Flat(Rows(before + [c] + after)) != [] ==> bare == shown + multiset(KeptAll(Cells(inner))))
            && (Flat(Rows(before + [c] + after)) == [] ==> shown == multiset{})
  {
    hide BlocksInk, DocumentOf, KeptAll, Rows, Flat, Cells;
    var e := Element(Inline, style, inner);
    var c, d := Element(Row, r, first + [e] + last), Element(Row, r, first + inner + last);
    InlineIsNone(e);
    CellsConcat(first + [e], last);
    CellsConcat(first, [e]);
    CellsConcat(first + inner, last);
    CellsConcat(first, inner);
    assert Cells(first) + [] == Cells(first);
    FlatOne(Cells(c.kids));
    FlatOne(Cells(d.kids));
    KeptThree(Cells(first), Cells(inner), Cells(last));
    HasRow(before, c, after);
    ChildGains(s, before, c, d, after, Cells(inner));
  }

  lemma HasRow(before: seq<Html>, c: Html, after: seq<Html>)
    requires Is(c, Row)
    ensures Rows(before + [c] + after) != []
  {
    hide Rows;
    TableParts(before, [c], after);
    NoRowsOf();
    RowsSnoc([], c);
    assert [] + [c] == [c] && |ChildRows(c)| == 1;
  }

  /** And straight inside a row group of a table, the rows in it. */
  lemma UnwrapInGroup(s: Format, before: seq<Html>, r: Format, first: seq<Html>, style: Format, inner: seq<Html>, last: seq<Html>, after: seq<Html>)
    ensures var c := Element(RowGroup, r, first + [Element(Inline, style, inner)] + last);
            var d := Element(RowGroup, r, first + inner + last);
            var shown := multiset(BlocksInk(DocumentOf([Element(TableTag, s, before + [c] + after)])));
            var bare := multiset(BlocksInk(DocumentOf([Element(TableTag, s, before + [d] + after)])));
            Rows(before + [c] + after) != [] ==>
              && (Flat(Rows(before + [c] + after)) != [] ==> bare == shown + multiset(KeptAll(Flat(GroupRows(inner)))))
              && (Flat(Rows(before + [c] + after)) == [] ==> shown == multiset{})
  {
    hide BlocksInk, DocumentOf, KeptAll, Rows, Flat, GroupRows;
    var e := Element(Inline, style, inner);
    var c, d := Element(RowGroup, r, first + [e] + last), Element(RowGroup, r, first + inner + last);
    InlineIsNone(e);
    GroupParts(first, [e], last);
    GroupParts(first, inner, last);
    FlatNone();
    KeptThree(Flat(GroupRows(first)), Flat(GroupRows(inner)), Flat(GroupRows(last)));
    assert Flat(GroupRows(first)) + [] == Flat(GroupRows(first));
    if Rows(before + [c] + after) != [] { ChildGains(s, before, c, d, after, Flat(GroupRows(inner))); }
  }

  lemma GroupParts(a: seq<Html>, b: seq<Html>, c: seq<Html>)
    ensures Flat(GroupRows(a + b + c)) == Flat(GroupRows(a)) + Flat(GroupRows(b)) + Flat(GroupRows(c))
  {
    hide GroupRows, Flat;
    GroupRowsConcat(a + b, c);
    GroupRowsConcat(a, b);
    FlatConcat(GroupRows(a) + GroupRows(b), GroupRows(c));
    FlatConcat(GroupRows(a), GroupRows(b));
  }
}
