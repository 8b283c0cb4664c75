/** Wrapping texts without tabs in at least two free columns: nothing is lost, every line fits, and no
    index ever leaves the remainder. */
module PlainText {
  import opened Basics
  import opened TextWrapping

  /** The next line. */
  function NextLine(remainder: string, indent: nat, free: nat): (line: Line)
    requires remainder != "" && free >= 2
    ensures line.Line? && line.indent == indent
    ensures line.Consumed() != "" && line.Consumed() <= remainder
    ensures line.dropped in {"", " ", "\n"} && (line.hyphen ==> line.dropped == "")
    ensures |line.text| + (if line.hyphen then 1 else 0) <= free
    ensures '\n' !in line.text
  {
    var w := Window(remainder, free);
    WindowHasText(remainder, indent, free);
    Piece(remainder, indent, w).value
  }

  lemma WindowHasText(remainder: string, indent: nat, free: nat)
    requires remainder != "" && free >= 2
    ensures var line := Piece(remainder, indent, Window(remainder, free));
            line.Some? && line.value.Consumed() != ""
  {
  }

  /** All lines of a text, however many. */
  function AllLines(remainder: string, indent: nat, attr: Attributes): seq<Line>
    requires indent + 2 <= attr.width && attr.indent + 2 <= attr.width
    decreases |remainder|
  {
    if remainder == "" then []
    else
      var line := NextLine(remainder, indent, attr.width - indent);
      [line] + AllLines(remainder[|line.Consumed()|..], attr.indent, attr)
  }

  function Consumed(lines: seq<Line>): string {
    if lines == [] then "" else lines[0].Consumed() + Consumed(lines[1..])
  }

  // ---------- what wrapping keeps ----------

  lemma PrefixAndRest(a: string, b: string)
    requires a <= b
    ensures a + b[|a|..] == b
  {
  }

  /** No character is lost, added or moved: the pieces of the lines, each with the single space
      or newline dropped after it, are the input. */
  lemma {:induction false} NothingLost(remainder: string, indent: nat, attr: Attributes)
    requires indent + 2 <= attr.width && attr.indent + 2 <= attr.width
    ensures Consumed(AllLines(remainder, indent, attr)) == remainder
    decreases |remainder|
  {
    hide NextLine, Line.Render, Line.Consumed;
    if remainder != "" {
      var line := NextLine(remainder, indent, attr.width - indent);
      NothingLost(remainder[|line.Consumed()|..], attr.indent, attr);
      PrefixAndRest(line.Consumed(), remainder);
    }
  }

  /** A line that was not the truncation note fits, and holds no newline. */
  predicate Fits(line: Line, indent: nat, width: nat) {
    line.Line? && line.indent == indent && |line.Render()| <= width && '\n' !in line.Render()
  }

  lemma NextLineFits(remainder: string, indent: nat, width: nat)
    requires remainder != "" && indent + 2 <= width
    ensures Fits(NextLine(remainder, indent, width - indent), indent, width)
  {
    hide NextLine;
    var line := NextLine(remainder, indent, width - indent);
    assert '\n' !in Spaces(indent);
  }

  /** Every line fits, and is indented like the first or like the rest. */
  lemma {:induction false} LinesFit(remainder: string, indent: nat, attr: Attributes)
    requires indent + 2 <= attr.width && attr.indent + 2 <= attr.width
    ensures var all := AllLines(remainder, indent, attr);
            && (all != [] ==> Fits(all[0], indent, attr.width))
            && forall i | 0 < i < |all| :: Fits(all[i], attr.indent, attr.width)
    decreases |remainder|
  {
    hide NextLine, Fits, Line.Consumed, Line.Render;
    if remainder != "" {
      var line := NextLine(remainder, indent, attr.width - indent);
      NextLineFits(remainder, indent, attr.width);
      var rest := remainder[|line.Consumed()|..];
      LinesFit(rest, attr.indent, attr);
      forall i | 0 < i < |AllLines(remainder, indent, attr)|
        ensures AllLines(remainder, indent, attr)[i] == AllLines(rest, attr.indent, attr)[i - 1]
      {
      }
    }
  }

  predicate Blank(c: char) {
    c == ' ' || c == '\n'
  }

  function Squeeze(s: string): string {
    if s == "" then "" else (if Blank(s[0]) then "" else [s[0]]) + Squeeze(s[1..])
  }

  /** The pieces of the lines without indents and inserted hyphens. */
  function Texts(lines: seq<Line>): string {
    if lines == [] then "" else (if lines[0].Line? then lines[0].text else "") + Texts(lines[1..])
  }

  lemma {:induction false} SqueezeConcat(a: string, b: string)
    ensures Squeeze(a + b) == Squeeze(a) + Squeeze(b)
  {
    if a == "" {
      assert a + b == b;
    } else {
      assert (a + b)[1..] == a[1..] + b;
      SqueezeConcat(a[1..], b);
    }
  }

  lemma {:induction false} TextsSqueezed(lines: seq<Line>)
    requires forall l | l in lines :: l.Line? && l.dropped in {"", " ", "\n"}
    ensures Squeeze(Texts(lines)) == Squeeze(Consumed(lines))
  {
    hide Squeeze;
    if lines != [] {
      var l := lines[0];
      assert l in lines;
      TextsSqueezed(lines[1..]);
      SqueezeConcat(l.text, Texts(lines[1..]));
      SqueezeDropped(l.text, l.dropped, Consumed(lines[1..]));
    }
  }

  lemma {:induction false} OnlyBlanksDropped(remainder: string, indent: nat, attr: Attributes)
    requires indent + 2 <= attr.width && attr.indent + 2 <= attr.width
    ensures forall l | l in AllLines(remainder, indent, attr) :: l.Line? && l.dropped in {"", " ", "\n"}
    decreases |remainder|
  {
    hide NextLine, Line.Render, Line.Consumed;
    if remainder != "" {
      var line := NextLine(remainder, indent, attr.width - indent);
      OnlyBlanksDropped(remainder[|line.Consumed()|..], attr.indent, attr);
    }
  }

  /** Without indents, inserted hyphens and blanks the lines are the input without blanks. */
  lemma ContentPreserved(str: string, indent: nat, attr: Attributes)
    requires indent + 2 <= attr.width && attr.indent + 2 <= attr.width
    ensures Squeeze(Texts(AllLines(str, indent, attr))) == Squeeze(str)
  {
    NothingLost(str, indent, attr);
    OnlyBlanksDropped(str, indent, attr);
    TextsSqueezed(AllLines(str, indent, attr));
  }

  lemma SqueezeDropped(text: string, dropped: string, rest: string)
    requires dropped in {"", " ", "\n"}
    ensures Squeeze(text + dropped + rest) == Squeeze(text) + Squeeze(rest)
  {
    hide Squeeze;
    SqueezeConcat(text + dropped, rest);
    SqueezeConcat(text, dropped);
    SqueezeBlank(dropped);
  }

  lemma SqueezeBlank(s: string)
    requires s in {"", " ", "\n"}
    ensures Squeeze(s) == ""
  {
    if s != "" {
      assert s[1..] == "";
    }
  }

  // ---------- the loop ----------

  lemma PlainCut(remainder: string, indent: nat, attr: Attributes, first: bool)
    requires remainder != "" && indent + 2 <= attr.width && attr.tabChar !in remainder
    requires first || indent == attr.indent
    ensures var line := NextLine(remainder, indent, attr.width - indent);
            var cut := CutOne(remainder, indent, attr, first);
            && cut.Some? && cut.value.line == line && cut.value.rest == remainder[|line.Consumed()|..]
            && (cut.value.rest != "" ==> cut.value.indent == attr.indent)
  {
    hide FindLast, Window, FindFirst;
    var w := Window(remainder, attr.width - indent);
    assert attr.Free(indent) == attr.width - indent;
    assert TabAt(remainder, w, attr.tabChar) == None;
    assert Untabbed(remainder, None) == remainder && Width(remainder, w, None) == w;
    WindowHasText(remainder, indent, attr.width - indent);
  }

  /** Without tabs the loop never runs out of the remainder; it keeps as many lines as it has room for and
      adds the note exactly when there are more. */
  lemma {:induction false} LimitKeepsPrefix(remainder: string, indent: nat, attr: Attributes, first: bool, limit: nat)
    requires indent + 2 <= attr.width && attr.indent + 2 <= attr.width && attr.tabChar !in remainder
    requires first || indent == attr.indent
    ensures var all := AllLines(remainder, indent, attr);
            Wrap(remainder, indent, attr, first, limit)
            == Done(if |all| <= limit then all else all[..limit] + [Truncation])
    decreases limit
  {
    hide NextLine, CutOne, Line.Consumed;
    if remainder != "" && limit > 0 {
      PlainCut(remainder, indent, attr, first);
      var cut := CutOne(remainder, indent, attr, first).value;
      var more := AllLines(cut.rest, attr.indent, attr);
      if cut.rest != "" {
        LimitKeepsPrefix(cut.rest, attr.indent, attr, false, limit - 1);
        if |more| > limit - 1 {
          assert ([cut.line] + more)[..limit] == [cut.line] + more[..limit - 1];
        }
      }
    }
  }
}
