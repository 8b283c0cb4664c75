/** Where lines end: at a newline, before the last character of the line at which a line may be broken, or
    inside a word that holds none. */
module LineBreaks {
  import opened Basics
  import opened TextWrapping
  import opened PlainText
  import opened TabbedText

  /** A line may be broken before this character. */
  predicate Breakable(c: char) {
    || c == ' ' || c == '[' || c == '(' || c == '{' || c == '.'
    || c == ',' || c == '/' || c == '|' || c == '\\' || c == '-'
  }

  /** A line may reach up to `w`: to the free columns, the end of the text, or the first newline. */
  predicate Stops(t: string, free: nat, w: nat) {
    && w <= free && w <= |t|
    && (forall i | 0 <= i < w :: t[i] != '\n')
    && (w == free || w == |t| || t[w] == '\n')
  }

  /** The line from the start of `t` that may reach up to `w`. */
  ghost predicate BrokenRight(t: string, w: nat, line: Line)
    requires w <= |t|
  {
    && line.Line?
    && if w == |t| then line.text == t && !line.hyphen && line.dropped == ""
       else if t[w] == '\n' then
         line.text == t[..w] && !line.hyphen && line.dropped == if w > 1 && |t| == w + 1 then "" else "\n"
       else if line.hyphen then
         && (forall i | 0 < i <= w :: !Breakable(t[i]))
         && w > 0 && line.text == t[..w - 1] && line.dropped == ""
       else
         var n := |line.text|;
         && 0 < n <= w && line.text == t[..n]
         && Breakable(t[n]) && (forall i | n < i <= w :: !Breakable(t[i]))
         && line.dropped == if t[n] == ' ' then " " else ""
  }

  /** No line can be made: there is no column, and text comes first. */
  predicate NoColumn(t: string, w: nat) {
    w == 0 && t != "" && t[0] != '\n'
  }

  lemma BreakableIs(c: char)
    ensures Breakable(c) <==> c in WRAPPABLE
  {
  }

  lemma PieceBreaks(t: string, indent: nat, w: nat)
    requires w <= |t|
    ensures Piece(t, indent, w) == None <==> NoColumn(t, w)
    ensures var line := Piece(t, indent, w);
            line.Some? ==> line.value.indent == indent && BrokenRight(t, w, line.value)
  {
    hide FindLast;
    forall c ensures Breakable(c) <==> c in WRAPPABLE {
      BreakableIs(c);
    }
    hide Breakable;
    assert t[..|t|] == t;
  }

  lemma WindowIs(t: string, free: nat)
    ensures Stops(t, free, Window(t, free))
  {
    hide Window;
    var w := Window(t, free);
    assert forall i | 0 <= i < w :: t[i] == t[..w][i];
  }

  /** There is only one such place. */
  lemma StopsOnce(t: string, free: nat, v: nat, w: nat)
    requires Stops(t, free, v) && Stops(t, free, w)
    ensures v == w
  {
  }

  // ---------- texts without tabs ----------

  lemma NextBreaks(remainder: string, indent: nat, free: nat) returns (w: nat)
    requires remainder != "" && free >= 2
    ensures Stops(remainder, free, w) && BrokenRight(remainder, w, NextLine(remainder, indent, free))
  {
    w := Window(remainder, free);
    WindowIs(remainder, free);
    PieceBreaks(remainder, indent, w);
  }

  lemma FirstBreaks(remainder: string, indent: nat, attr: Attributes) returns (w: nat)
    requires remainder != "" && indent + 2 <= attr.width && attr.indent + 2 <= attr.width
    ensures var all := AllLines(remainder, indent, attr);
            var t := Consumed(all);
            && all != [] && all[0].Line? && all[0].indent == indent
            && Stops(t, attr.width - indent, w) && BrokenRight(t, w, all[0])
  {
    hide NextLine, Stops, BrokenRight, Line.Consumed, Consumed;
    NothingLost(remainder, indent, attr);
    w := NextBreaks(remainder, indent, attr.width - indent);
  }

  lemma AfterFirst(remainder: string, indent: nat, attr: Attributes, k: nat) returns (rest: string)
    requires indent + 2 <= attr.width && attr.indent + 2 <= attr.width
    requires 0 < k < |AllLines(remainder, indent, attr)|
    ensures |rest| < |remainder| && k <= |AllLines(rest, attr.indent, attr)|
    ensures AllLines(remainder, indent, attr)[k..] == AllLines(rest, attr.indent, attr)[k - 1..]
  {
    hide NextLine, Line.Consumed;
    var line := NextLine(remainder, indent, attr.width - indent);
    rest := remainder[|line.Consumed()|..];
    assert AllLines(remainder, indent, attr) == [line] + AllLines(rest, attr.indent, attr);
  }

  /** Line `k` is broken right from what is then left of the text, which is what it and the lines after it
      account for. */
  ghost predicate LineRight(all: seq<Line>, k: nat, indent: nat, attr: Attributes, w: nat) {
    && k < |all| && all[k].Line? && all[k].indent == (if k == 0 then indent else attr.indent)
    && var t := Consumed(all[k..]);
       && all[k].indent <= attr.width && Stops(t, attr.width - all[k].indent, w)
       && BrokenRight(t, w, all[k])
  }

  lemma LineRightAfter(all: seq<Line>, more: seq<Line>, k: nat, indent: nat, attr: Attributes, w: nat)
    requires 0 < k < |all| && k <= |more| && all[k..] == more[k - 1..] && LineRight(more, k - 1, attr.indent, attr, w)
    ensures LineRight(all, k, indent, attr, w)
  {
    hide Consumed, Stops, BrokenRight;
    assert all[k] == all[k..][0] && more[k - 1] == more[k - 1..][0];
  }

  lemma {:induction false} LinesBreak(remainder: string, indent: nat, attr: Attributes, k: nat) returns (w: nat)
    requires indent + 2 <= attr.width && attr.indent + 2 <= attr.width && k < |AllLines(remainder, indent, attr)|
    ensures LineRight(AllLines(remainder, indent, attr), k, indent, attr, w)
    decreases |remainder|
  {
    hide *;
    var all := AllLines(remainder, indent, attr);
    SomeLine(remainder, indent, attr, k);
    if k == 0 {
      w := FirstBreaks(remainder, indent, attr);
      FirstRight(all, indent, attr, w);
    } else {
      var rest := AfterFirst(remainder, indent, attr, k);
      w := LinesBreak(rest, attr.indent, attr, k - 1);
      LineRightAfter(all, AllLines(rest, attr.indent, attr), k, indent, attr, w);
    }
  }

  lemma SomeLine(remainder: string, indent: nat, attr: Attributes, k: nat)
    requires indent + 2 <= attr.width && attr.indent + 2 <= attr.width && k < |AllLines(remainder, indent, attr)|
    ensures remainder != ""
  {
  }

  lemma FirstRight(all: seq<Line>, indent: nat, attr: Attributes, w: nat)
    requires all != [] && all[0].Line? && all[0].indent == indent <= attr.width
    requires var t := Consumed(all); Stops(t, attr.width - indent, w) && BrokenRight(t, w, all[0])
    ensures LineRight(all, 0, indent, attr, w)
  {
    hide Consumed, Stops, BrokenRight;
    assert all[0..] == all;
  }

  /** What is written of a line: as many spaces as its indent, its piece of the text, and the hyphen. */
  lemma RenderedIs(line: Line)
    ensures var r := line.Render();
            match line
            case Line(indent, text, hyphen, _) =>
              && |r| == indent + |text| + (if hyphen then 1 else 0)
              && (forall i | 0 <= i < indent :: r[i] == ' ')
              && r[indent..indent + |text|] == text && (hyphen ==> r[|r| - 1] == '-')
            case Truncation => r == "... message truncated due to excessive size"
  {
    match line
    case Line(indent, text, hyphen, _) =>
      assert line.Render() == Spaces(indent) + (text + if hyphen then "-" else "");
    case Truncation =>
  }

  // ---------- any text ----------

  /** The last tab at or before `w`. */
  predicate LastTab(s: string, w: nat, tabChar: char, tab: Option<nat>) {
    match tab
    case None => forall i | 0 <= i < |s| && i <= w :: s[i] != tabChar
    case Some(t) => t < |s| && t <= w && s[t] == tabChar && forall i | t < i < |s| && i <= w :: s[i] != tabChar
  }

  /** What an iteration of the loop does with the remainder `s`: the last tab of the line is taken out, the line
      is broken from what is left, and, wrapped, the tab moves the indent of the next line. */
  ghost predicate Iterates(s: string, indent: nat, attr: Attributes, first: bool,
                           line: Line, rest: string, next: nat, w: nat, tab: Option<nat>)
  {
    && Stops(s, attr.Free(indent), w) && LastTab(s, w, attr.tabChar, tab)
    && var t := if tab.Some? then s[..tab.value] + s[tab.value + 1..] else s;
       var v := if tab.Some? && w < |s| && s[w] == '\n' then w - 1 else w;
       && 0 <= v <= |t| && BrokenRight(t, v, line) && line.indent == indent
       && t == line.text + line.dropped + rest
       && next == if v == |t| then indent
                  else if t[v] == '\n' then attr.indent
                  else (if first then attr.indent else indent) + (if tab.Some? then tab.value else 0)
  }

  lemma TabIs(s: string, w: nat, tabChar: char)
    ensures LastTab(s, w, tabChar, TabAt(s, w, tabChar))
  {
  }

  lemma CutIterates(s: string, indent: nat, attr: Attributes, first: bool) returns (w: nat, tab: Option<nat>)
    requires s != "" && CutOne(s, indent, attr, first).Some?
    ensures var cut := CutOne(s, indent, attr, first).value;
            Iterates(s, indent, attr, first, cut.line, cut.rest, cut.indent, w, tab)
  {
    hide FindLast, Piece, Window, TabAt, BrokenRight, Stops, LastTab, Attributes.Free;
    w := Window(s, attr.Free(indent));
    tab := TabAt(s, w, attr.tabChar);
    WindowIs(s, attr.Free(indent));
    TabIs(s, w, attr.tabChar);
    var t, v := Untabbed(s, tab), Width(s, w, tab);
    PieceBreaks(t, indent, v);
    var line := Piece(t, indent, v).value;
    PrefixAndRest(line.Consumed(), t);
  }

  /** Each line that the loop makes is the one of an iteration from the remainder reached before it to the one
      reached after it. */
  lemma {:induction false} WrapIterates(s: string, indent: nat, attr: Attributes, first: bool, limit: nat, k: nat)
    returns (w: nat, tab: Option<nat>)
    requires var lines := Wrap(s, indent, attr, first, limit).lines; k < |lines| && lines[k].Line?
    ensures var line := Wrap(s, indent, attr, first, limit).lines[k];
            var before, after := Reached(s, indent, attr, first, k), Reached(s, indent, attr, first, k + 1);
            && before.Some? && before.value.0 != "" && after.Some?
            && Iterates(before.value.0, before.value.1, attr, first && k == 0,
                        line, after.value.0, after.value.1, w, tab)
    decreases k
  {
    hide CutOne, Iterates;
    var cut := CutOne(s, indent, attr, first).value;
    if k == 0 {
      w, tab := CutIterates(s, indent, attr, first);
      assert Reached(cut.rest, cut.indent, attr, false, 0) == Some((cut.rest, cut.indent));
    } else {
      w, tab := WrapIterates(cut.rest, cut.indent, attr, false, limit - 1, k - 1);
    }
  }

  /** An example: two words that do not fit one line. */
  lemma TwoWords(s: string, attr: Attributes)
    requires s == "hello world" && attr.width == 8 && attr.indent == 0
    ensures AllLines(s, 0, attr) == [Line(0, "hello", false, " "), Line(0, "world", false, "")]
  {
    hide NextLine;
    var w := NextBreaks(s, 0, 8);
    var line := NextLine(s, 0, 8);
    assert Breakable(s[5]) && !Breakable(s[6]) && !Breakable(s[7]) && !Breakable(s[8]);
    assert w == 8;
    assert |line.text| == 5;
    assert line == Line(0, "hello", false, " ");
    var rest := s[|line.Consumed()|..];
    assert rest == "world";
    var v := NextBreaks(rest, 0, 8);
    assert v == 5;
    var last := NextLine(rest, 0, 8);
    assert last == Line(0, "world", false, "");
    assert rest[|last.Consumed()|..] == "";
  }
}
