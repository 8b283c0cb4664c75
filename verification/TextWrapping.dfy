/** Wrapping a text to a column width. */
module TextWrapping {
  import opened Basics

  const NPOS: Size := SIZE_MODULUS - 1
  const WRAPPABLE := " [({.,/|\\-"
  const MAX_LINES := 1000
  const TRUNCATION := "... message truncated due to excessive size"

  datatype Attributes = Attributes(initialIndent: Size, indent: Size, width: Size, tabChar: char) {
    function FirstIndent(): nat {
      if initialIndent != NPOS then initialIndent else indent
    }

    /** At least two columns are free after either indent. */
    predicate Roomy() {
      FirstIndent() + 2 <= width && indent + 2 <= width
    }

    /** The columns left after an indent, as an unsigned subtraction. */
    function Free(indented: nat): (f: nat)
      ensures indented <= width ==> f == width - indented
    {
      (width - indented) % SIZE_MODULUS
    }
  }

  function Spaces(n: nat): (s: string)
    ensures |s| == n && forall i | 0 <= i < n :: s[i] == ' '
  {
    seq(n, _ => ' ')
  }

  /** The first position of `c`. */
  function FindFirst(s: string, c: char): (r: Option<nat>)
    ensures r.None? ==> c !in s
    ensures r.Some? ==> r.value < |s| && s[r.value] == c && c !in s[..r.value]
  {
    if s == "" then None
    else if s[0] == c then Some(0)
    else match FindFirst(s[1..], c)
         case None => None
         case Some(i) => assert s[..i + 1] == [s[0]] + s[1..][..i]; Some(i + 1)
  }

  /** The last position, no later than `upTo`, of a character of `chars`. */
  function FindLast(s: string, chars: string, upTo: nat): (r: Option<nat>)
    ensures r.None? ==> forall i | 0 <= i < |s| && i <= upTo :: s[i] !in chars
    ensures r.Some? ==> r.value < |s| && r.value <= upTo && s[r.value] in chars
    ensures r.Some? ==> forall i | r.value < i < |s| && i <= upTo :: s[i] !in chars
    decreases upTo
  {
    if upTo < |s| && s[upTo] in chars then Some(upTo)
    else if upTo == 0 then None
    else FindLast(s, chars, upTo - 1)
  }

  // ---------- wrapping on values ----------

  /** One line: its indent, its piece of the text, whether a hyphen was inserted after the
      piece, and what was dropped from the text after the piece. */
  datatype Line =
    | Line(indent: nat, text: string, hyphen: bool, dropped: string)
    | Truncation
  {
    function Render(): string {
      match this
      case Line(indent, text, hyphen, _) => Spaces(indent) + text + if hyphen then "-" else ""
      case Truncation => TRUNCATION
    }

    /** The piece of the input the line accounts for. */
    function Consumed(): string {
      if Line? then text + dropped else ""
    }
  }

  /** Up to where the remainder is looked at: the free columns, or the first newline. */
  function Window(remainder: string, free: nat): (w: nat)
    ensures w <= |remainder| && w <= free
    ensures '\n' !in remainder[..w]
    ensures w < free ==> w == |remainder| || remainder[w] == '\n'
  {
    var width := Min(|remainder|, free);
    match FindFirst(remainder, '\n')
    case None => width
    case Some(pos) =>
      if pos <= width then pos
      else assert forall i | 0 <= i < width :: remainder[i] == remainder[..pos][i]; width
  }

  /** The line cut from `r` at the width `w`, unless an index leaves `r`. */
  function Piece(r: string, indent: nat, w: nat): (line: Option<Line>)
    requires w <= |r|
    ensures line.Some? ==>
              && line.value.Line? && line.value.indent == indent
              && line.value.Consumed() <= r
              && line.value.dropped in {"", " ", "\n"} && (line.value.hyphen ==> line.value.dropped == "")
              && |line.value.text| + (if line.value.hyphen then 1 else 0) <= w
              && line.value.text <= r[..w]
    ensures w >= 1 ==> line.Some?
    ensures w >= 2 && r != "" ==> line.value.Consumed() != ""
  {
    if w == |r| then Some(Line(indent, r, false, ""))
    else if r[w] == '\n' then Some(Line(indent, r[..w], false, if w <= 1 || |r| - w != 1 then "\n" else ""))
    else
      match FindLast(r, WRAPPABLE, w)
      case Some(pos) =>
        if pos > 0 then Some(Line(indent, r[..pos], false, if r[pos] == ' ' then " " else ""))
        else Hyphenated(r, indent, w)
      case None => Hyphenated(r, indent, w)
  }

  function Hyphenated(r: string, indent: nat, w: nat): Option<Line>
    requires w <= |r|
  {
    if w == 0 then None else Some(Line(indent, r[..w - 1], true, ""))
  }

  function Untabbed(s: string, tab: Option<nat>): string
    requires tab.Some? ==> tab.value < |s|
  {
    if tab.Some? then s[..tab.value] + s[tab.value + 1..] else s
  }

  /** Where the last tab in the window stands. */
  function TabAt(remainder: string, w: nat, tabChar: char): (tab: Option<nat>)
    ensures tab.Some? ==> tab.value < |remainder| && tab.value <= w && remainder[tab.value] == tabChar
    ensures tab.None? ==> forall i | 0 <= i < |remainder| && i <= w :: remainder[i] != tabChar
  {
    FindLast(remainder, [tabChar], w)
  }

  /** The width is measured before the tab is removed, and adjusted only in front of a newline. */
  function Width(remainder: string, w: nat, tab: Option<nat>): int
    requires w <= |remainder|
  {
    if tab.Some? && w < |remainder| && remainder[w] == '\n' then w - 1 else w
  }

  /** What an iteration of the loop leaves: the line it pushed, the rest of the text, and the next indent. */
  datatype Cut = Cut(line: Line, rest: string, indent: nat)

  /** The indent after a line cut from `r` at the width `w`: a tab in a wrapped line moves it to the tab. */
  function NextIndent(r: string, w: nat, tab: Option<nat>, indent: nat, attr: Attributes, first: bool): nat
    requires w <= |r|
  {
    if w == |r| then indent
    else if r[w] == '\n' then attr.indent
    else (if first then attr.indent else indent) + (if tab.Some? then tab.value else 0)
  }

  /** One iteration; `None` if an index leaves the remainder. */
  function CutOne(remainder: string, indent: nat, attr: Attributes, first: bool): Option<Cut>
    requires remainder != ""
  {
    var w0 := Window(remainder, attr.Free(indent));
    var tab := TabAt(remainder, w0, attr.tabChar);
    var r, w := Untabbed(remainder, tab), Width(remainder, w0, tab);
    if w < 0 || w > |r| then None
    else
      match Piece(r, indent, w)
      case None => None
      case Some(line) => Some(Cut(line, r[|line.Consumed()|..], NextIndent(r, w, tab, indent, attr, first)))
  }

  /** `Overrun` holds the lines pushed before an index left the remainder. */
  datatype Outcome = Done(lines: seq<Line>) | Overrun(lines: seq<Line>) {
    function After(line: Line): Outcome {
      match this case Done(ls) => Done([line] + ls) case Overrun(ls) => Overrun([line] + ls)
    }
  }

  /** The loop with room for `limit` lines more. */
  function Wrap(remainder: string, indent: nat, attr: Attributes, first: bool, limit: nat): Outcome
    decreases limit
  {
    if remainder == "" then Done([])
    else if limit == 0 then Done([Truncation])
    else
      match CutOne(remainder, indent, attr, first)
      case None => Overrun([])
      case Some(cut) => Wrap(cut.rest, cut.indent, attr, false, limit - 1).After(cut.line)
  }

  function Rendered(lines: seq<Line>): (r: seq<string>)
    ensures |r| == |lines| && forall i | 0 <= i < |r| :: r[i] == lines[i].Render()
  {
    seq(|lines|, i requires 0 <= i < |lines| => lines[i].Render())
  }

  // ---------- the loop ----------

  lemma RenderIs(indent: nat, text: string, dropped: string)
    ensures Line(indent, text, false, dropped).Render() == Spaces(indent) + text
    ensures Line(indent, text, true, dropped).Render() == Spaces(indent) + text + "-"
    ensures Truncation.Render() == TRUNCATION
  {
  }

  /** The rendered lines so far and what is to come make up the outcome of the whole loop. */
  ghost predicate Comes(all: Outcome, lines: seq<string>, rest: Outcome) {
    all.Done? == rest.Done? && Rendered(all.lines) == lines + Rendered(rest.lines)
  }

  lemma ComesNext(all: Outcome, lines: seq<string>, rest: Outcome, line: Line)
    requires Comes(all, lines, rest.After(line))
    ensures Comes(all, lines + [line.Render()], rest)
  {
    hide Line.Render;
    var next := rest.After(line);
    assert Rendered(next.lines) == [line.Render()] + Rendered(rest.lines);
  }

  lemma ComesToEnd(all: Outcome, lines: seq<string>, rest: Outcome)
    requires Comes(all, lines, rest)
    ensures all.Done? == rest.Done?
    ensures rest.lines == [] ==> lines == Rendered(all.lines)
    ensures rest.lines == [Truncation] ==> lines + [TRUNCATION] == Rendered(all.lines)
  {
  }

  class Text {
    var lines: seq<string>
    /** Whether every index stayed in the remainder; what the program does otherwise is undefined, or it
        throws. */
    var complete: bool

    constructor (str: string, attr: Attributes)
      ensures var start := if attr.initialIndent == SIZE_MODULUS - 1 then attr.indent else attr.initialIndent;
              var all := Wrap(str, start, attr, true, 1000);
              && complete == all.Done? && |lines| == |all.lines|
              && forall i | 0 <= i < |lines| :: lines[i] == all.lines[i].Render()
    {
      lines, complete := [], true;
      new;
      Fill(str, attr);
    }

    /** The loop of the constructor. */
    method Fill(str: string, attr: Attributes)
      requires lines == [] && complete
      modifies this
      ensures var all := Wrap(str, attr.FirstIndent(), attr, true, MAX_LINES);
              lines == Rendered(all.lines) && complete == all.Done?
    {
      hide CutOne, Comes, Rendered, Line.Render;
      var indent: nat := attr.FirstIndent();
      var remainder := str;
      ghost var all := Wrap(str, indent, attr, true, MAX_LINES);
      assert Comes(all, lines, all) by { ComesAtStart(all); }
      while remainder != ""
        invariant complete && |lines| <= MAX_LINES
        invariant Comes(all, lines, Wrap(remainder, indent, attr, lines == [], MAX_LINES - |lines|))
        decreases MAX_LINES - |lines|
      {
        ghost var before, rest := lines, Wrap(remainder, indent, attr, lines == [], MAX_LINES - |lines|);
        if |lines| >= MAX_LINES {
          ComesToEnd(all, lines, rest);
          lines := lines + [TRUNCATION];
          return;
        }
        ghost var cut := CutOne(remainder, indent, attr, lines == []);
        remainder, indent := CutLine(remainder, indent, attr);
        if !complete {
          ComesToEnd(all, lines, rest);
          return;
        }
        ComesNext(all, before, Wrap(remainder, indent, attr, false, MAX_LINES - |lines|), cut.value.line);
      }
      ComesToEnd(all, lines, Done([]));
    }

    lemma ComesAtStart(all: Outcome)
      ensures Comes(all, [], all)
    {
      assert Rendered(all.lines) == [] + Rendered(all.lines);
    }

    /** One iteration: pushes the next line and leaves the rest of the text and the next indent. */
    method CutLine(remainder: string, indent: nat, attr: Attributes) returns (rest: string, newIndent: nat)
      requires remainder != "" && complete
      modifies this
      ensures match CutOne(remainder, indent, attr, old(lines) == [])
              case None => !complete && lines == old(lines)
              case Some(cut) =>
                && complete && lines == old(lines) + [cut.line.Render()]
                && rest == cut.rest && newIndent == cut.indent
    {
      hide Piece, Line.Render, Line.Consumed, Window, TabAt, Untabbed, Width, NextIndent;
      newIndent := indent;
      var r, width, tabPos := Measure(remainder, indent, attr);
      if width < 0 || width > |r| {
        complete := false;
        rest := r;
        return;
      }
      rest, newIndent := CutAt(r, width, tabPos, indent, attr);
    }

    /** The width of the next line, and the remainder without the last tab of its window. */
    static method Measure(remainder: string, indent: nat, attr: Attributes)
      returns (rest: string, width: int, tabPos: Option<nat>)
      ensures var w := Window(remainder, attr.Free(indent));
              && tabPos == TabAt(remainder, w, attr.tabChar)
              && rest == Untabbed(remainder, tabPos) && width == Width(remainder, w, tabPos)
    {
      hide FindLast, FindFirst;
      rest, tabPos := remainder, None;
      width := Min(|rest|, attr.Free(indent));
      var pos := FindFirst(rest, '\n');
      if pos.Some? && pos.value <= width {
        width := pos.value;
      }
      assert width == Window(remainder, attr.Free(indent));
      pos := TabAt(rest, width, attr.tabChar);
      if pos.Some? {
        tabPos := pos;
        if width < |rest| && rest[width] == '\n' {
          width := width - 1;
        }
        rest := rest[..pos.value] + rest[pos.value + 1..];
      }
    }

    /** The three ways to cut a line at a width inside the remainder. */
    method CutAt(r: string, width: nat, tabPos: Option<nat>, indent: nat, attr: Attributes)
      returns (rest: string, newIndent: nat)
      requires width <= |r| && complete
      modifies this
      ensures match Piece(r, indent, width)
              case None => !complete && lines == old(lines)
              case Some(line) =>
                && complete && lines == old(lines) + [line.Render()] && rest == r[|line.Consumed()|..]
                && newIndent == NextIndent(r, width, tabPos, indent, attr, old(lines) == [])
    {
      hide Piece, Line.Render, Line.Consumed;
      newIndent := indent;
      var first := lines == [];
      if width == |r| {
        rest := PushAll(indent, r, width);
      } else if r[width] == '\n' {
        rest := PushToNewline(indent, r, width);
        newIndent := attr.indent;
      } else {
        rest := WrapAt(r, indent, width);
        if first {
          newIndent := attr.indent;
        }
        if tabPos.Some? {
          newIndent := newIndent + tabPos.value;
        }
      }
    }

    /** The whole remainder is the line. */
    method PushAll(indent: nat, remainder: string, width: nat) returns (rest: string)
      requires width == |remainder|
      modifies this`lines
      ensures Piece(remainder, indent, width).Some?
      ensures var line := Piece(remainder, indent, width).value;
              lines == old(lines) + [line.Render()] && rest == remainder[|line.Consumed()|..]
    {
      hide Line.Render, Spaces, FindLast;
      RenderIs(indent, remainder, "");
      assert remainder[..width] == remainder;
      rest := SpliceLine(indent, remainder, width);
    }

    /** The line ends at a newline, which goes with it unless it ends the text. */
    method PushToNewline(indent: nat, remainder: string, width: nat) returns (rest: string)
      requires width < |remainder| && remainder[width] == '\n'
      modifies this`lines
      ensures Piece(remainder, indent, width).Some?
      ensures var line := Piece(remainder, indent, width).value;
              lines == old(lines) + [line.Render()] && rest == remainder[|line.Consumed()|..]
    {
      hide Line.Render, Spaces, FindLast;
      RenderIs(indent, remainder[..width], "");
      RenderIs(indent, remainder[..width], "\n");
      rest := SpliceLine(indent, remainder, width);
      if width <= 1 || |rest| != 1 {
        rest := rest[1..];
      }
    }

    /** Breaks the line at the last wrappable character of the window, or inside a word. */
    method WrapAt(remainder: string, indent: nat, width: nat) returns (rest: string)
      requires width < |remainder| && remainder[width] != '\n' && complete
      modifies this
      ensures match Piece(remainder, indent, width)
              case None => !complete && lines == old(lines)
              case Some(line) =>
                complete && lines == old(lines) + [line.Render()] && rest == remainder[|line.Consumed()|..]
    {
      hide Line.Render, FindLast, Spaces;
      rest := remainder;
      var pos := FindLast(remainder, WRAPPABLE, width);
      if pos.Some? && pos.value > 0 {
        RenderIs(indent, remainder[..pos.value], " ");
        RenderIs(indent, remainder[..pos.value], "");
        rest := SpliceLine(indent, remainder, pos.value);
        if rest[0] == ' ' {
          rest := rest[1..];
        }
      } else if width == 0 {
        complete := false;
      } else {
        RenderIs(indent, remainder[..width - 1], "");
        rest := SpliceLine(indent, remainder, width - 1);
        lines := lines[|lines| - 1 := lines[|lines| - 1] + "-"];
      }
    }

    method SpliceLine(indent: nat, remainder: string, pos: nat) returns (rest: string)
      requires pos <= |remainder|
      modifies this`lines
      ensures lines == old(lines) + [Spaces(indent) + remainder[..pos]]
      ensures rest == remainder[pos..]
    {
      lines := lines + [Spaces(indent) + remainder[..pos]];
      rest := remainder[pos..];
    }
  }
}
