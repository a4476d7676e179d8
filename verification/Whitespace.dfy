/** Whitespace in a translation's HTML, as worker/translation_docx.py treats it.

    Two definitions of the same thing meet here. `TextStep` and `BreakStep` follow the
    source: each text node is cleaned, collapsed and stripped on its own, and three
    variables carry what the next node needs to know. `Render` is what a browser does
    with the whole line at once (section 4.1 of CSS Text Module Level 3): the words of
    each line joined by single spaces, the lines joined by breaks, trailing breaks
    dropped. `RunIsRender` says they agree, however the characters were split
    into text nodes. */
module Whitespace {

  /** The class `[ \t\n\r\f]` of the source's `_COLLAPSIBLE`. */
  predicate Collapsible(c: char) {
    c == ' ' || c == '\t' || c == '\n' || c == '\r' || c == '\U{000C}'
  }

  /** The characters XML cannot carry. A form feed is one of them, so it never collapses. */
  predicate Forbidden(c: char) {
    c <= '\U{0008}' || c == '\U{000B}' || c == '\U{000C}' || '\U{000E}' <= c <= '\U{001F}'
    || c == '\U{FFFE}' || c == '\U{FFFF}'
  }

  /** A character that is content: it has to reach the document. */
  predicate Inked(c: char) {
    !Collapsible(c) && !Forbidden(c)
  }

  function Ink(s: string): string {
    if s == "" then "" else Ink(s[..|s| - 1]) + if Inked(s[|s| - 1]) then [s[|s| - 1]] else ""
  }

  // ---- The string operations of the source ----

  function Clean(s: string): string {
    if s == "" then "" else Clean(s[..|s| - 1]) + if Forbidden(s[|s| - 1]) then "" else [s[|s| - 1]]
  }

  predicate EndsWith(s: string, c: char) {
    s != "" && s[|s| - 1] == c
  }

  /** Every maximal run of collapsible characters becomes one space. */
  function Collapse(s: string): string {
    if s == "" then ""
    else
      var before, c := Collapse(s[..|s| - 1]), s[|s| - 1];
      if !Collapsible(c) then before + [c]
      else if EndsWith(before, ' ') then before
      else before + " "
  }

  function StripLeft(s: string, c: char): string {
    if s != "" && s[0] == c then StripLeft(s[1..], c) else s
  }

  function StripRight(s: string, c: char): string {
    if EndsWith(s, c) then StripRight(s[..|s| - 1], c) else s
  }

  function Strip(s: string, c: char): string {
    StripRight(StripLeft(s, c), c)
  }

  function Breaks(n: nat): string {
    if n == 0 then "" else Breaks(n - 1) + "\n"
  }

  // ---- What the cursor remembers of the paragraph being written ----

  /** The text written so far; whether the current line has any; whether a space is owed;
      how many line breaks are owed. */
  datatype Line = Line(out: string, hasText: bool, space: bool, breaks: nat)

  const EMPTY_LINE := Line("", false, false, 0)

  /** A space is owed only within a line, and breaks only before one. */
  predicate Settled(l: Line) {
    (l.space ==> l.hasText) && (l.hasText ==> l.breaks == 0)
  }

  /** One text node that is not preformatted. */
  function TextStep(l: Line, raw: string): Line {
    var collapsed := Collapse(Clean(raw));
    var core := Strip(collapsed, ' ');
    if core == "" then
      if collapsed != "" && l.hasText then l.(space := true) else l
    else
      var lead := (collapsed[0] == ' ' || l.space) && l.hasText;
      Line(l.out + Breaks(l.breaks) + (if lead then " " else "") + core, true, EndsWith(collapsed, ' '), 0)
  }

  function BreakStep(l: Line): Line {
    Line(l.out, false, false, l.breaks + 1)
  }

  // ---- The same, one character at a time ----

  /** What a paragraph is given: a character, a line break, or preformatted text. */
  datatype Token = Ch(c: char) | Br | Verbatim(text: string)

  function CharStep(l: Line, c: char): Line {
    if Forbidden(c) then l
    else if Collapsible(c) then l.(space := l.space || l.hasText)
    else Line(l.out + Breaks(l.breaks) + (if l.hasText && l.space then " " else "") + [c], true, false, 0)
  }

  function TokenStep(l: Line, t: Token): Line {
    match t
    case Ch(c) => CharStep(l, c)
    case Br => BreakStep(l)
    case Verbatim(text) => Line(l.out + Breaks(l.breaks) + text, true, l.space, 0)
  }

  function Run(l: Line, ts: seq<Token>): Line {
    if ts == [] then l else TokenStep(Run(l, ts[..|ts| - 1]), ts[|ts| - 1])
  }

  function Chars(s: string): seq<Token> {
    if s == "" then [] else Chars(s[..|s| - 1]) + [Ch(s[|s| - 1])]
  }

  lemma RunSnoc(l: Line, ts: seq<Token>, t: Token)
    ensures Run(l, ts + [t]) == TokenStep(Run(l, ts), t)
  {
    assert (ts + [t])[..|ts|] == ts;
  }

  lemma {:induction false} RunConcat(l: Line, a: seq<Token>, b: seq<Token>)
    ensures Run(l, a + b) == Run(Run(l, a), b)
  {
    if b == [] {
      assert a + b == a;
    } else {
      var n := |b| - 1;
      RunConcat(l, a, b[..n]);
      assert (a + b)[..|a + b| - 1] == a + b[..n];
    }
  }

  lemma {:induction false} RunSettled(l: Line, ts: seq<Token>)
    requires Settled(l)
    ensures Settled(Run(l, ts))
  {
    if ts != [] { RunSettled(l, ts[..|ts| - 1]); }
  }

  // ---- A text node is its characters ----

  /** What collapsing leaves: at most one space on each side of a core that neither begins
      nor ends with one. */
  ghost predicate Parts(lead: string, core: string, trail: string) {
    && (lead == "" || lead == " ") && (trail == "" || trail == " ")
    && (core == "" ==> trail == "")
    && (core != "" ==> core[0] != ' ' && core[|core| - 1] != ' ')
  }

  /** `TextStep` on a text that collapses to these parts. */
  ghost function PartsStep(l: Line, lead: string, core: string, trail: string): Line {
    if core == "" then l.(space := l.space || (lead != "" && l.hasText))
    else Line(l.out + Breaks(l.breaks) + (if (lead != "" || l.space) && l.hasText then " " else "") + core,
              true, trail != "", 0)
  }

  lemma StripRightStops(s: string)
    requires s != "" && s[|s| - 1] != ' '
    ensures StripRight(s, ' ') == s
  {
  }

  lemma StripParts(lead: string, core: string, trail: string)
    requires Parts(lead, core, trail)
    ensures Strip(lead + core + trail, ' ') == core
  {
    var t := lead + core + trail;
    if core == "" {
      assert t == lead;
      if lead == " " { assert lead[1..] == ""; }
    } else {
      assert t == lead + (core + trail);
      if lead == " " { assert t[1..] == core + trail; }
      assert StripLeft(t, ' ') == core + trail;
      StripRightStops(core);
      if trail == "" { assert core + trail == core; } else { assert (core + trail)[..|core|] == core; }
    }
  }

  lemma TextStepParts(l: Line, raw: string, lead: string, core: string, trail: string)
    requires Parts(lead, core, trail) && Collapse(Clean(raw)) == lead + core + trail
    ensures TextStep(l, raw) == PartsStep(l, lead, core, trail)
  {
    StripParts(lead, core, trail);
    var t := lead + core + trail;
    if core == "" {
      assert t == lead;
    } else {
      assert t[0] == if lead != "" then ' ' else core[0];
      assert t[|t| - 1] == if trail != "" then ' ' else core[|core| - 1];
    }
  }

  lemma CollapseSnoc(s: string, c: char)
    ensures Collapse(s + [c]) ==
            if !Collapsible(c) then Collapse(s) + [c]
            else if EndsWith(Collapse(s), ' ') then Collapse(s) else Collapse(s) + " "
  {
    assert (s + [c])[..|s|] == s;
  }

  lemma PartsStepBlank(l: Line, lead: string, core: string, trail: string, c: char)
    requires Settled(l) && Parts(lead, core, trail) && Collapsible(c) && !Forbidden(c)
    ensures var lead', trail' := if core == "" then " " else lead, if core == "" then "" else " ";
            CharStep(PartsStep(l, lead, core, trail), c) == PartsStep(l, lead', core, trail')
  {
  }

  lemma PartsStepInk(l: Line, lead: string, core: string, trail: string, c: char)
    requires Settled(l) && Parts(lead, core, trail) && Inked(c)
    ensures CharStep(PartsStep(l, lead, core, trail), c) == PartsStep(l, lead, core + trail + [c], "")
  {
    if core == "" {
      assert core + trail + [c] == [c];
    } else {
      var out := PartsStep(l, lead, core, trail).out;
      assert Breaks(0) == "";
      assert out + "" + trail + [c] == out[..|out| - |core|] + (core + trail + [c]);
    }
  }

  lemma PartsBlank(lead: string, core: string, trail: string)
    requires Parts(lead, core, trail)
    ensures var lead', trail' := if core == "" then " " else lead, if core == "" then "" else " ";
            var t := lead + core + trail;
            (if EndsWith(t, ' ') then t else t + " ") == lead' + core + trail'
  {
    var t := lead + core + trail;
    if core == "" {
      assert t == lead;
      assert " " + "" + "" == " ";
    } else if trail == "" {
      assert t == lead + core && t[|t| - 1] == core[|core| - 1];
    } else {
      assert t[|t| - 1] == ' ';
    }
  }

  lemma NextPartsBlank(s: string, c: char, lead: string, core: string, trail: string)
    requires Parts(lead, core, trail) && Collapse(s) == lead + core + trail && Collapsible(c)
    ensures var lead', trail' := if core == "" then " " else lead, if core == "" then "" else " ";
            Collapse(s + [c]) == lead' + core + trail'
  {
    CollapseSnoc(s, c);
    PartsBlank(lead, core, trail);
  }

  lemma Regroup(a: string, b: string, c: string, d: string)
    ensures a + b + c + d == a + (b + c + d) + ""
  {
  }

  lemma NextPartsInk(s: string, c: char, lead: string, core: string, trail: string)
    requires Parts(lead, core, trail) && Collapse(s) == lead + core + trail && Inked(c)
    ensures Parts(lead, core + trail + [c], "")
    ensures Collapse(s + [c]) == lead + (core + trail + [c]) + ""
  {
    CollapseSnoc(s, c);
    Regroup(lead, core, trail, [c]);
    var grown := core + trail + [c];
    assert grown[|grown| - 1] == c;
    assert grown[0] == if core != "" then core[0] else c;
  }

  lemma NextParts(l: Line, s: string, c: char, lead: string, core: string, trail: string)
    returns (lead': string, core': string, trail': string)
    requires Settled(l) && Parts(lead, core, trail) && Collapse(s) == lead + core + trail
    ensures Parts(lead', core', trail')
    ensures Collapse(s + if Forbidden(c) then "" else [c]) == lead' + core' + trail'
    ensures CharStep(PartsStep(l, lead, core, trail), c) == PartsStep(l, lead', core', trail')
  {
    if Forbidden(c) {
      lead', core', trail' := lead, core, trail;
      assert s + "" == s;
    } else if Collapsible(c) {
      lead', core', trail' := if core == "" then " " else lead, core, if core == "" then "" else " ";
      NextPartsBlank(s, c, lead, core, trail);
      PartsStepBlank(l, lead, core, trail, c);
    } else {
      lead', core', trail' := lead, core + trail + [c], "";
      NextPartsInk(s, c, lead, core, trail);
      PartsStepInk(l, lead, core, trail, c);
    }
  }

  /** A text node leaves the line as its characters one by one would. */
  lemma {:induction false} TextParts(l: Line, raw: string) returns (lead: string, core: string, trail: string)
    requires Settled(l)
    ensures Parts(lead, core, trail) && Collapse(Clean(raw)) == lead + core + trail
    ensures Run(l, Chars(raw)) == PartsStep(l, lead, core, trail)
  {
    if raw == "" {
      lead, core, trail := "", "", "";
    } else {
      var before, c := raw[..|raw| - 1], raw[|raw| - 1];
      lead, core, trail := TextParts(l, before);
      RunSnoc(l, Chars(before), Ch(c));
      lead, core, trail := NextParts(l, Clean(before), c, lead, core, trail);
    }
  }

  lemma TextIsChars(l: Line, raw: string)
    requires Settled(l)
    ensures TextStep(l, raw) == Run(l, Chars(raw))
  {
    var lead, core, trail := TextParts(l, raw);
    TextStepParts(l, raw, lead, core, trail);
  }

  // ---- What the whole line should look like ----

  /** The words of a line: maximal runs of characters that do not collapse. */
  function Words(s: string): seq<string> {
    if s == "" then []
    else
      var before, c := s[..|s| - 1], s[|s| - 1];
      if Collapsible(c) then Words(before)
      else if before == "" || Collapsible(before[|before| - 1]) || Words(before) == [] then Words(before) + [[c]]
      else Words(before)[..|Words(before)| - 1] + [Words(before)[|Words(before)| - 1] + [c]]
  }

  function Join(parts: seq<string>, separator: string): string {
    if parts == [] then ""
    else if |parts| == 1 then parts[0]
    else Join(parts[..|parts| - 1], separator) + separator + parts[|parts| - 1]
  }

  /** One line of text with its whitespace collapsed and trimmed. */
  function Normal(s: string): string {
    Join(Words(s), " ")
  }

  /** No preformatted text. */
  predicate Flowing(ts: seq<Token>) {
    forall i | 0 <= i < |ts| :: !ts[i].Verbatim?
  }

  /** The characters between breaks, without those XML cannot carry. */
  function Lines(ts: seq<Token>): (lines: seq<string>)
    requires Flowing(ts)
    ensures lines != []
  {
    if ts == [] then [""]
    else
      var before := Lines(ts[..|ts| - 1]);
      var k := |before| - 1;
      match ts[|ts| - 1]
      case Br => before + [""]
      case Ch(c) => if Forbidden(c) then before else before[..k] + [before[k] + [c]]
  }

  /** The lines of a paragraph, each normalised, joined by breaks. */
  function JoinedLines(lines: seq<string>): string {
    if lines == [] then ""
    else if |lines| == 1 then Normal(lines[0])
    else JoinedLines(lines[..|lines| - 1]) + "\n" + Normal(lines[|lines| - 1])
  }

  /** The text of a paragraph, from its characters and breaks alone. */
  function Render(ts: seq<Token>): string
    requires Flowing(ts)
  {
    StripRight(JoinedLines(Lines(ts)), '\n')
  }

  lemma {:induction false} WordsNonempty(s: string)
    ensures Words(s) != [] ==> var w := Words(s)[|Words(s)| - 1]; w != "" && !Collapsible(w[|w| - 1])
  {
    if s != "" { WordsNonempty(s[..|s| - 1]); }
  }

  lemma JoinSnoc(parts: seq<string>, last: string, separator: string)
    ensures Join(parts + [last], separator) ==
            if parts == [] then last else Join(parts, separator) + separator + last
  {
    assert (parts + [last])[..|parts|] == parts;
  }

  lemma JoinLonger(parts: seq<string>, c: char, separator: string)
    requires parts != []
    ensures Join(parts[..|parts| - 1] + [parts[|parts| - 1] + [c]], separator) == Join(parts, separator) + [c]
  {
    var init, last := parts[..|parts| - 1], parts[|parts| - 1];
    assert parts == init + [last];
    JoinSnoc(init, last, separator);
    JoinSnoc(init, last + [c], separator);
    if init != [] {
      assert Join(init, separator) + separator + (last + [c]) == Join(init, separator) + separator + last + [c];
    }
  }

  lemma JoinEnd(init: seq<string>, last: string, separator: string)
    requires last != ""
    ensures EndsWith(Join(init + [last], separator), last[|last| - 1])
  {
    JoinSnoc(init, last, separator);
    if init != [] {
      var before := Join(init, separator) + separator;
      assert (before + last)[|before| + |last| - 1] == last[|last| - 1];
    }
  }

  /** A line with words ends, normalised, in the last character of its last word. */
  lemma NormalWords(s: string)
    ensures Normal(s) == "" <==> Words(s) == []
    ensures Normal(s) != "" ==> s != "" && !Collapsible(Normal(s)[|Normal(s)| - 1])
  {
    WordsNonempty(s);
    var ws := Words(s);
    if ws != [] {
      var last := ws[|ws| - 1];
      assert ws == ws[..|ws| - 1] + [last];
      JoinEnd(ws[..|ws| - 1], last, " ");
    }
  }

  lemma WordsSnoc(s: string, c: char)
    ensures Words(s + [c]) ==
            if Collapsible(c) then Words(s)
            else if Words(s) == [] || Collapsible(s[|s| - 1]) then Words(s) + [[c]]
            else Words(s)[..|Words(s)| - 1] + [Words(s)[|Words(s)| - 1] + [c]]
  {
    assert (s + [c])[..|s|] == s;
  }

  lemma NormalSnoc(s: string, c: char)
    ensures Normal(s + [c]) ==
            if Collapsible(c) then Normal(s)
            else if Normal(s) == "" then [c]
            else Normal(s) + (if Collapsible(s[|s| - 1]) then " " else "") + [c]
  {
    NormalWords(s);
    WordsSnoc(s, c);
    hide Words, Join;
    var ws := Words(s);
    if Collapsible(c) {
    } else if ws == [] {
      JoinSnoc([], [c], " ");
    } else if Collapsible(s[|s| - 1]) {
      JoinSnoc(ws, [c], " ");
    } else {
      JoinLonger(ws, c, " ");
      assert Normal(s) + "" == Normal(s);
    }
  }

  lemma JoinedLinesSnoc(lines: seq<string>, last: string)
    ensures JoinedLines(lines + [last]) ==
            if lines == [] then Normal(last) else JoinedLines(lines) + "\n" + Normal(last)
  {
    assert (lines + [last])[..|lines|] == lines;
  }

  /** The state `l` of the cursor tells these lines. */
  ghost predicate Tells(l: Line, lines: seq<string>)
    requires lines != []
  {
    var cur := lines[|lines| - 1];
    && Settled(l)
    && JoinedLines(lines) == l.out + Breaks(l.breaks)
    && !EndsWith(l.out, '\n')
    && (l.hasText <==> Normal(cur) != "")
    && (l.space <==> l.hasText && Collapsible(cur[|cur| - 1]))
  }

  /** `Tells` for a last line `cur` below lines that join to `above`. */
  ghost predicate TellsBelow(l: Line, above: string, cur: string) {
    && Settled(l)
    && above + Normal(cur) == l.out + Breaks(l.breaks)
    && !EndsWith(l.out, '\n')
    && (l.hasText <==> Normal(cur) != "")
    && (l.space <==> l.hasText && Collapsible(cur[|cur| - 1]))
  }

  lemma TellsBelowInk(l: Line, above: string, cur: string, c: char)
    requires TellsBelow(l, above, cur) && Inked(c)
    ensures TellsBelow(CharStep(l, c), above, cur + [c])
  {
    NormalSnoc(cur, c);
    var lead := if l.hasText && l.space then " " else "";
    assert CharStep(l, c).out == l.out + Breaks(l.breaks) + lead + [c];
    assert EndsWith(CharStep(l, c).out, c);
    if Normal(cur) == "" {
      assert above + "" == above;
      assert above + [c] == l.out + Breaks(l.breaks) + "" + [c];
    } else {
      assert above + (Normal(cur) + lead + [c]) == (above + Normal(cur)) + lead + [c];
    }
    assert CharStep(l, c).out + "" == CharStep(l, c).out;
  }

  lemma TellsBelowBlank(l: Line, above: string, cur: string, c: char)
    requires TellsBelow(l, above, cur) && Collapsible(c) && !Forbidden(c)
    ensures TellsBelow(CharStep(l, c), above, cur + [c])
  {
    NormalSnoc(cur, c);
  }

  lemma TellsChar(l: Line, init: seq<string>, cur: string, c: char)
    requires Tells(l, init + [cur]) && !Forbidden(c)
    ensures Tells(CharStep(l, c), init + [cur + [c]])
  {
    JoinedLinesSnoc(init, cur);
    JoinedLinesSnoc(init, cur + [c]);
    var above := if init == [] then "" else JoinedLines(init) + "\n";
    assert "" + Normal(cur) == Normal(cur) && "" + Normal(cur + [c]) == Normal(cur + [c]);
    NormalWords(cur);
    if Collapsible(c) {
      TellsBelowBlank(l, above, cur, c);
    } else {
      TellsBelowInk(l, above, cur, c);
    }
  }

  lemma TellsBreak(l: Line, lines: seq<string>)
    requires lines != [] && Tells(l, lines)
    ensures Tells(BreakStep(l), lines + [""])
  {
    JoinedLinesSnoc(lines, "");
    assert Normal("") == "";
    assert (l.out + Breaks(l.breaks)) + "\n" + "" == l.out + (Breaks(l.breaks) + "\n");
  }

  lemma {:induction false} RunTells(ts: seq<Token>)
    requires Flowing(ts)
    ensures Tells(Run(EMPTY_LINE, ts), Lines(ts))
  {
    if ts == [] {
      assert "" + Breaks(0) == "";
    } else {
      var n := |ts| - 1;
      var l, lines := Run(EMPTY_LINE, ts[..n]), Lines(ts[..n]);
      RunTells(ts[..n]);
      match ts[n] {
        case Br => TellsBreak(l, lines);
        case Ch(c) =>
          if !Forbidden(c) {
            assert lines == lines[..|lines| - 1] + [lines[|lines| - 1]];
            TellsChar(l, lines[..|lines| - 1], lines[|lines| - 1], c);
          }
      }
    }
  }

  lemma StripRightSnoc(s: string, d: char, c: char)
    ensures StripRight(s + [d], c) == if d == c then StripRight(s, c) else s + [d]
  {
    assert (s + [d])[..|s|] == s;
  }

  lemma {:induction false} StripRightBreaks(s: string, n: nat)
    ensures StripRight(s + Breaks(n), '\n') == StripRight(s, '\n')
  {
    hide StripRight;
    if n == 0 {
      assert s + "" == s;
    } else {
      var shorter := s + Breaks(n - 1);
      StripRightBreaks(s, n - 1);
      StripRightSnoc(shorter, '\n', '\n');
      assert s + Breaks(n) == shorter + ['\n'];
    }
  }

  /** The text a paragraph ends up with is the rendering of its characters and breaks. */
  lemma {:induction false} RunIsRender(ts: seq<Token>)
    requires Flowing(ts)
    ensures Run(EMPTY_LINE, ts).out == Render(ts)
  {
    RunTells(ts);
    var l := Run(EMPTY_LINE, ts);
    StripRightBreaks(l.out, l.breaks);
  }

  // ---- No content is lost ----

  function InkOf(t: Token): string {
    match t
    case Br => ""
    case Ch(c) => if Inked(c) then [c] else ""
    case Verbatim(text) => Ink(text)
  }

  function TokenInk(ts: seq<Token>): string {
    if ts == [] then "" else TokenInk(ts[..|ts| - 1]) + InkOf(ts[|ts| - 1])
  }

  lemma {:induction false} InkConcat(a: string, b: string)
    ensures Ink(a + b) == Ink(a) + Ink(b)
  {
    if b == "" {
      assert a + b == a;
    } else {
      InkConcat(a, b[..|b| - 1]);
      assert (a + b)[..|a + b| - 1] == a + b[..|b| - 1];
    }
  }

  lemma {:induction false} TokenInkConcat(a: seq<Token>, b: seq<Token>)
    ensures TokenInk(a + b) == TokenInk(a) + TokenInk(b)
  {
    hide InkOf;
    if b == [] {
      assert a + b == a;
    } else {
      TokenInkConcat(a, b[..|b| - 1]);
      assert (a + b)[..|a + b| - 1] == a + b[..|b| - 1];
    }
  }

  lemma {:induction false} BreaksInk(n: nat)
    ensures Ink(Breaks(n)) == ""
  {
    if n > 0 {
      BreaksInk(n - 1);
      InkConcat(Breaks(n - 1), "\n");
    }
  }

  lemma InkAdded(out: string, blank: string, lead: string, text: string)
    requires Ink(blank) == "" && (lead == "" || lead == " ")
    ensures Ink(out + blank + lead + text) == Ink(out) + Ink(text)
  {
    InkConcat(out + blank + lead, text);
    InkConcat(out + blank, lead);
    InkConcat(out, blank);
    InkOne(' ');
  }

  lemma CharStepInk(l: Line, c: char)
    ensures Ink(CharStep(l, c).out) == Ink(l.out) + if Inked(c) then [c] else ""
  {
    if Inked(c) {
      BreaksInk(l.breaks);
      InkAdded(l.out, Breaks(l.breaks), if l.hasText && l.space then " " else "", [c]);
      InkOne(c);
    }
  }

  lemma InkOne(c: char)
    ensures Ink([c]) == if Inked(c) then [c] else ""
  {
    assert [c][..0] == "";
  }

  /** Collapsing drops and adds only whitespace: every other character is written once, in order. */
  lemma {:induction false} RunInk(l: Line, ts: seq<Token>)
    ensures Ink(Run(l, ts).out) == Ink(l.out) + TokenInk(ts)
  {
    if ts != [] {
      var n := |ts| - 1;
      RunInk(l, ts[..n]);
      var k := Run(l, ts[..n]);
      match ts[n] {
        case Br =>
        case Ch(c) => CharStepInk(k, c);
        case Verbatim(text) =>
          BreaksInk(k.breaks);
          InkAdded(k.out, Breaks(k.breaks), "", text);
          assert k.out + Breaks(k.breaks) + "" == k.out + Breaks(k.breaks);
      }
    }
  }

  lemma {:induction false} CharsInk(s: string)
    ensures TokenInk(Chars(s)) == Ink(s)
  {
    if s != "" {
      CharsInk(s[..|s| - 1]);
    }
  }
}
