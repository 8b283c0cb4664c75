/** Wrapping texts with tabs: exactly when an index leaves the remainder, exactly when an indent passes
    the width, and what is kept of the text. */
module TabbedText {
  import opened Basics
  import opened TextWrapping
  import opened PlainText

  // ---------- when an iteration fails ----------

  /** With a tab in the window, the width passes the end of the remainder without that tab exactly if the
      whole remainder fits the line and holds no newline. */
  lemma TabOverrunsIff(remainder: string, free: nat, tabChar: char)
    requires remainder != "" && tabChar != '\n'
    requires TabAt(remainder, Window(remainder, free), tabChar).Some?
    ensures var w := Window(remainder, free);
            var tab := TabAt(remainder, w, tabChar);
            && 0 <= Width(remainder, w, tab)
            && (Width(remainder, w, tab) > |Untabbed(remainder, tab)|
                <==> '\n' !in remainder && |remainder| <= free)
  {
    var w := Window(remainder, free);
    if w == |remainder| {
      assert remainder[..w] == remainder;
    }
  }

  /** An index leaves the remainder in the next iteration: with no column free, text comes first; otherwise
      a tab is in what would be the last line. */
  predicate Stuck(remainder: string, indent: nat, attr: Attributes)
    requires remainder != ""
  {
    if attr.Free(indent) == 0 then
      var r := if remainder[0] == attr.tabChar then remainder[1..] else remainder;
      remainder[0] != '\n' && r != "" && r[0] != '\n'
    else attr.tabChar in remainder && '\n' !in remainder && |remainder| <= attr.Free(indent)
  }

  lemma CutFailsIff(remainder: string, indent: nat, attr: Attributes, first: bool)
    requires remainder != "" && attr.tabChar != '\n'
    ensures CutOne(remainder, indent, attr, first) == None <==> Stuck(remainder, indent, attr)
  {
    hide FindLast, FindFirst, Line.Consumed;
    var free := attr.Free(indent);
    var w := Window(remainder, free);
    var tab := TabAt(remainder, w, attr.tabChar);
    if tab.Some? {
      TabOverrunsIff(remainder, free, attr.tabChar);
    }
    if free == 0 {
      NothingFree(remainder, indent, attr, first);
    } else {
      hide Piece, Window;
      if w == |remainder| {
        assert remainder[..w] == remainder;
      }
      WindowStops(remainder, free);
    }
  }

  /** A window stops short of the free columns only at the end or at a newline. */
  lemma WindowStops(remainder: string, free: nat)
    requires remainder != "" && free > 0
    ensures var w := Window(remainder, free);
            && (w == 0 ==> remainder[0] == '\n')
            && (|remainder| <= free && '\n' !in remainder ==> w == |remainder|)
            && (w == |remainder| ==> |remainder| <= free && '\n' !in remainder)
  {
    var w := Window(remainder, free);
    if w == |remainder| {
      assert remainder[..w] == remainder;
    }
  }

  lemma NothingFree(remainder: string, indent: nat, attr: Attributes, first: bool)
    requires remainder != "" && attr.tabChar != '\n' && attr.Free(indent) == 0
    ensures CutOne(remainder, indent, attr, first) == None <==> Stuck(remainder, indent, attr)
  {
    var tab := TabAt(remainder, 0, attr.tabChar);
    assert tab == Some(0) <==> remainder[0] == attr.tabChar;
    assert tab == Some(0) ==> Untabbed(remainder, tab) == remainder[1..];
  }

  // ---------- when a whole text fails ----------

  /** The remainder and its indent after `n` iterations, if there are that many. */
  function Reached(remainder: string, indent: nat, attr: Attributes, first: bool, n: nat): Option<(string, nat)>
    decreases n
  {
    if n == 0 then Some((remainder, indent))
    else if remainder == "" then None
    else
      match CutOne(remainder, indent, attr, first)
      case None => None
      case Some(cut) => Reached(cut.rest, cut.indent, attr, false, n - 1)
  }

  ghost predicate StuckAfter(remainder: string, indent: nat, attr: Attributes, first: bool, n: nat) {
    match Reached(remainder, indent, attr, first, n)
    case None => false
    case Some((r, i)) => r != "" && Stuck(r, i, attr)
  }

  /** The loop fails exactly if within its limit it comes to a remainder in which it is stuck, and the lines
      before are as many as the iterations before. */
  lemma {:induction false} OverrunIff(remainder: string, indent: nat, attr: Attributes, first: bool, limit: nat)
    requires attr.tabChar != '\n'
    ensures var all := Wrap(remainder, indent, attr, first, limit);
            && (all.Overrun? <==> exists n: nat :: n < limit && StuckAfter(remainder, indent, attr, first, n))
            && (all.Overrun? ==> |all.lines| < limit && StuckAfter(remainder, indent, attr, first, |all.lines|))
    decreases limit
  {
    hide CutOne, Stuck;
    if remainder != "" && limit > 0 {
      CutFailsIff(remainder, indent, attr, first);
      match CutOne(remainder, indent, attr, first) {
        case None => assert StuckAfter(remainder, indent, attr, first, 0);
        case Some(cut) =>
          OverrunIff(cut.rest, cut.indent, attr, false, limit - 1);
          var more := Wrap(cut.rest, cut.indent, attr, false, limit - 1);
          if more.Overrun? {
            assert StuckAfter(remainder, indent, attr, first, |more.lines| + 1);
          }
          if n: nat :| n < limit && StuckAfter(remainder, indent, attr, first, n) {
            assert n > 0 && StuckAfter(cut.rest, cut.indent, attr, false, n - 1);
          }
      }
    }
  }

  /** A smaller limit keeps the lines there is room for, and fails only if the larger one does before. */
  lemma {:induction false} LimitCuts(remainder: string, indent: nat, attr: Attributes, first: bool, m: nat, n: nat)
    requires m <= n
    ensures var all := Wrap(remainder, indent, attr, first, n);
            Wrap(remainder, indent, attr, first, m)
            == if |all.lines| < m || (all.Done? && |all.lines| <= m) then all
               else Done(all.lines[..m] + [Truncation])
    decreases n
  {
    hide CutOne;
    if remainder != "" && m > 0 {
      match CutOne(remainder, indent, attr, first) {
        case None =>
        case Some(cut) =>
          LimitCuts(cut.rest, cut.indent, attr, false, m - 1, n - 1);
          var more := Wrap(cut.rest, cut.indent, attr, false, n - 1);
          if |more.lines| >= m - 1 {
            assert ([cut.line] + more.lines)[..m] == [cut.line] + more.lines[..m - 1];
          }
      }
    } else if remainder == "" {
    } else {
      assert Wrap(remainder, indent, attr, first, n).lines[..0] == [];
    }
  }

  // ---------- texts whose tabs are all in lines that fit ----------

  /** The text after the last newline holds a tab. */
  predicate LastHasTab(s: string, tabChar: char)
    decreases |s|
  {
    match FindFirst(s, '\n')
    case None => tabChar in s
    case Some(p) => LastHasTab(s[p + 1..], tabChar)
  }

  /** Every line of the text that holds a tab fits into the free columns, `free` for the first, `later` for
      the others. */
  predicate TabsFit(s: string, free: nat, later: nat, tabChar: char)
    decreases |s|
  {
    match FindFirst(s, '\n')
    case None => tabChar in s ==> |s| <= free
    case Some(p) => (tabChar in s[..p] ==> p <= free) && TabsFit(s[p + 1..], later, later, tabChar)
  }

  lemma FirstFrom(s: string, c: char, k: nat)
    requires FindFirst(s, c).Some? && k <= FindFirst(s, c).value
    ensures FindFirst(s[k..], c) == Some(FindFirst(s, c).value - k)
  {
    var p := FindFirst(s, c).value;
    assert s[k..][p - k] == c;
    var q := FindFirst(s[k..], c).value;
    assert forall i | 0 <= i < p - k :: s[k..][i] == s[..p][k + i];
    assert forall i | 0 <= i < q :: s[k..][..q][i] == s[k..][i];
  }

  lemma {:induction false} AtBreak(s: string, tabChar: char, free: nat, later: nat)
    requires FindFirst(s, '\n').Some?
    ensures var p := FindFirst(s, '\n').value;
            && (LastHasTab(s, tabChar) <==> LastHasTab(s[p + 1..], tabChar))
            && (TabsFit(s, free, later, tabChar)
                <==> (tabChar in s[..p] ==> p <= free) && TabsFit(s[p + 1..], later, later, tabChar))
  {
    hide FindFirst;
  }

  lemma RestOfLine(s: string, tabChar: char, k: nat, free: nat, later: nat)
    requires FindFirst(s, '\n').Some? && TabsFit(s, free, later, tabChar)
    requires var p := FindFirst(s, '\n').value; k <= p + 1 && (tabChar in s[..p] ==> k >= p)
    ensures TabsFit(s[k..], later, later, tabChar) && (LastHasTab(s[k..], tabChar) <==> LastHasTab(s, tabChar))
  {
    hide FindFirst, LastHasTab, TabsFit;
    var p := FindFirst(s, '\n').value;
    AtBreak(s, tabChar, free, later);
    if k <= p {
      FirstFrom(s, '\n', k);
      AtBreak(s[k..], tabChar, later, later);
      assert s[k..][p - k + 1..] == s[p + 1..];
      assert s[k..][..p - k] == s[..p][k..];
      assert forall c | c in s[..p][k..] :: c in s[..p];
    }
  }

  /** In two free columns an iteration inside a line without tabs, or over a line that fits, leaves a suffix of
      the text and the indent of the later lines. */
  lemma CutInLine(remainder: string, indent: nat, attr: Attributes, first: bool) returns (k: nat)
    requires remainder != "" && indent + 2 <= attr.width && attr.tabChar != '\n' && (first || indent == attr.indent)
    requires FindFirst(remainder, '\n').Some?
    requires var p := FindFirst(remainder, '\n').value;
             attr.tabChar in remainder[..p] ==> p <= attr.width - indent
    ensures var p, cut := FindFirst(remainder, '\n').value, CutOne(remainder, indent, attr, first);
            && cut.Some? && 0 < k <= p + 1 && (attr.tabChar in remainder[..p] ==> k >= p)
            && cut.value.rest == remainder[k..] && cut.value.indent == attr.indent
  {
    hide FindLast, Attributes.Free;
    var p, free := FindFirst(remainder, '\n').value, attr.width - indent;
    assert attr.Free(indent) == free;
    var w0 := Window(remainder, free);
    var tab := TabAt(remainder, w0, attr.tabChar);
    if attr.tabChar in remainder[..p] {
      var i :| 0 <= i < p && remainder[..p][i] == attr.tabChar;
      assert remainder[i] == attr.tabChar && tab.Some?;
      WindowToBreak(remainder, free);
      k := LineWithTab(remainder, p, tab.value, indent, attr, first);
    } else {
      assert forall i | 0 <= i < p :: remainder[..p][i] == remainder[i];
      assert tab == None;
      var line := Piece(remainder, indent, w0).value;
      k := |line.Consumed()|;
      WindowHasText(remainder, indent, free);
    }
  }

  /** A line with a tab that fits: the tab goes, and with the line its newline unless that ends the text. */
  lemma LineWithTab(s: string, p: nat, t: nat, indent: nat, attr: Attributes, first: bool) returns (k: nat)
    requires t < p < |s| && s[p] == '\n' && Window(s, attr.Free(indent)) == p && TabAt(s, p, attr.tabChar) == Some(t)
    ensures var cut := CutOne(s, indent, attr, first);
            && cut.Some? && 0 < k && p <= k <= p + 1 && cut.value.rest == s[k..] && cut.value.indent == attr.indent
  {
    hide Window, Piece, Untabbed, Line.Consumed, TabAt, CutOne, Width, NextIndent, Attributes.Free;
    var r := Untabbed(s, Some(t));
    UntabbedAfter(s, t, p);
    BeforeBreak(s, p, Some(t), r, indent, attr, first);
    k := LineAtBreak(r, indent, p - 1);
    k := k + 1;
    UntabbedTail(s, t, k);
    CutOneIs(s, indent, attr, first, p, Some(t), r, p - 1);
  }

  lemma CutOneIs(remainder: string, indent: nat, attr: Attributes, first: bool, w0: nat, tab: Option<nat>, r: string,
                 w: nat)
    requires remainder != "" && w0 == Window(remainder, attr.Free(indent)) && tab == TabAt(remainder, w0, attr.tabChar)
    requires r == Untabbed(remainder, tab) && w == Width(remainder, w0, tab) && w <= |r|
    ensures CutOne(remainder, indent, attr, first)
            == if Piece(r, indent, w) == None then None
               else
                 var line := Piece(r, indent, w).value;
                 Some(Cut(line, r[|line.Consumed()|..], NextIndent(r, w, tab, indent, attr, first)))
  {
  }

  lemma BeforeBreak(s: string, p: nat, tab: Option<nat>, r: string, indent: nat, attr: Attributes, first: bool)
    requires p < |s| && s[p] == '\n' && tab.Some? && 0 < p <= |r| && r[p - 1] == '\n'
    ensures Width(s, p, tab) == p - 1 && NextIndent(r, p - 1, tab, indent, attr, first) == attr.indent
  {
  }

  lemma UntabbedAfter(s: string, t: nat, p: nat)
    requires t < p < |s|
    ensures Untabbed(s, Some(t))[p - 1] == s[p] && |Untabbed(s, Some(t))| == |s| - 1
  {
  }

  lemma UntabbedTail(s: string, t: nat, k: nat)
    requires t < k <= |s|
    ensures Untabbed(s, Some(t))[k - 1..] == s[k..]
  {
  }

  lemma LineAtBreak(r: string, indent: nat, w: nat) returns (k: nat)
    requires w < |r| && r[w] == '\n'
    ensures Piece(r, indent, w).Some? && k == |Piece(r, indent, w).value.Consumed()| && w <= k <= w + 1
  {
    k := |Piece(r, indent, w).value.Consumed()|;
  }

  lemma WindowToBreak(remainder: string, free: nat)
    requires FindFirst(remainder, '\n').Some? && FindFirst(remainder, '\n').value <= free
    ensures Window(remainder, free) == FindFirst(remainder, '\n').value
  {
  }

  /** If every line of the text with a tab fits, and either indent leaves two columns, the loop, given room,
      fails if and only if the last line of the text holds a tab. */
  lemma {:induction false} FittingTabsFailIff(
    s: string, indent: nat, attr: Attributes, first: bool, limit: nat)
    requires indent + 2 <= attr.width && attr.indent + 2 <= attr.width && attr.tabChar != '\n'
    requires first || indent == attr.indent
    requires TabsFit(s, attr.width - indent, attr.width - attr.indent, attr.tabChar) && limit > |s|
    ensures Wrap(s, indent, attr, first, limit).Overrun? <==> LastHasTab(s, attr.tabChar)
    decreases limit
  {
    hide CutOne;
    var later := attr.width - attr.indent;
    if s == "" {
    } else if FindFirst(s, '\n') == None {
      if attr.tabChar in s {
        CutFailsIff(s, indent, attr, first);
      } else {
        LimitKeepsPrefix(s, indent, attr, first, limit);
      }
    } else {
      var k := CutInLine(s, indent, attr, first);
      RestOfLine(s, attr.tabChar, k, attr.width - indent, later);
      FittingTabsFailIff(s[k..], attr.indent, attr, false, limit - 1);
    }
  }

  /** For the constructor: with the tabs of the text all in lines that fit, it fails if and only if the last
      line holds a tab and the thousand lines do not run out before. */
  lemma TextFailsIff(s: string, attr: Attributes)
    requires attr.Roomy() && attr.tabChar != '\n'
    requires TabsFit(s, attr.width - attr.FirstIndent(), attr.width - attr.indent, attr.tabChar)
    ensures Wrap(s, attr.FirstIndent(), attr, true, MAX_LINES).Overrun?
            <==> LastHasTab(s, attr.tabChar)
                 && |Wrap(s, attr.FirstIndent(), attr, true, |s| + MAX_LINES + 1).lines| < MAX_LINES
  {
    hide Wrap;
    FittingTabsFailIff(s, attr.FirstIndent(), attr, true, |s| + MAX_LINES + 1);
    LimitCuts(s, attr.FirstIndent(), attr, true, MAX_LINES, |s| + MAX_LINES + 1);
  }

  /** The shortest example: in three columns and more the text is read past its end at once. */
  lemma TabbedWordFails(attr: Attributes)
    requires attr.Roomy() && attr.tabChar == '\t' && attr.FirstIndent() + 3 <= attr.width
    ensures Wrap("a\tb", attr.FirstIndent(), attr, true, MAX_LINES) == Overrun([])
  {
    hide CutOne;
    var s := "a\tb";
    assert s[1] == '\t' && s[0] == 'a' && s[2] == 'b' && '\t' in s && '\n' !in s;
    CutFailsIff(s, attr.FirstIndent(), attr, true);
  }

  // ---------- indents ----------

  /** No indent passes the width while text is left. */
  ghost predicate IndentsStay(remainder: string, indent: nat, attr: Attributes, first: bool, limit: nat)
    decreases limit
  {
    remainder == "" ||
    (&& indent <= attr.width
     && (limit > 0 && CutOne(remainder, indent, attr, first).Some? ==>
           var cut := CutOne(remainder, indent, attr, first).value;
           IndentsStay(cut.rest, cut.indent, attr, false, limit - 1)))
  }

  /** The first line is wrapped at a tab that the indent of the later lines moves out of the width. */
  predicate Hangs(s: string, attr: Attributes) {
    s != "" &&
    var w0 := Window(s, attr.Free(attr.FirstIndent()));
    var tab := TabAt(s, w0, attr.tabChar);
    var r, w := Untabbed(s, tab), Width(s, w0, tab);
    && tab.Some? && 0 <= w < |r| && r[w] != '\n' && attr.indent + tab.value > attr.width
    && match CutOne(s, attr.FirstIndent(), attr, true) case None => false case Some(cut) => cut.rest != ""
  }

  lemma IndentStays(remainder: string, indent: nat, attr: Attributes)
    requires remainder != "" && indent <= attr.width && attr.indent <= attr.width
    requires CutOne(remainder, indent, attr, false).Some?
    ensures CutOne(remainder, indent, attr, false).value.indent <= attr.width
  {
    hide Piece, FindLast;
  }

  lemma {:induction false} LaterIndentsStay(remainder: string, indent: nat, attr: Attributes, limit: nat)
    requires indent <= attr.width && attr.indent <= attr.width
    ensures IndentsStay(remainder, indent, attr, false, limit)
    decreases limit
  {
    hide CutOne;
    if remainder != "" && limit > 0 && CutOne(remainder, indent, attr, false).Some? {
      IndentStays(remainder, indent, attr);
      var cut := CutOne(remainder, indent, attr, false).value;
      LaterIndentsStay(cut.rest, cut.indent, attr, limit - 1);
    }
  }

  /** The subtraction of the indent from the width never wraps around if and only if the first line does not
      hang: only the first line can move the indent out of the width. */
  lemma IndentsStayIff(s: string, attr: Attributes, limit: nat)
    requires attr.FirstIndent() <= attr.width && attr.indent <= attr.width && limit > 0
    ensures IndentsStay(s, attr.FirstIndent(), attr, true, limit) <==> !Hangs(s, attr)
  {
    if s != "" && CutOne(s, attr.FirstIndent(), attr, true).Some? {
      var cut := CutOne(s, attr.FirstIndent(), attr, true).value;
      if cut.indent <= attr.width {
        LaterIndentsStay(cut.rest, cut.indent, attr, limit - 1);
      }
      FirstIndentIs(s, attr);
    }
  }

  lemma FirstIndentIs(s: string, attr: Attributes)
    requires s != "" && CutOne(s, attr.FirstIndent(), attr, true).Some?
    requires attr.FirstIndent() <= attr.width && attr.indent <= attr.width
    ensures var cut := CutOne(s, attr.FirstIndent(), attr, true).value;
            Hangs(s, attr) <==> cut.rest != "" && cut.indent > attr.width
  {
    hide FindLast;
  }

  /** A text without newlines whose first line is wrapped at a tab. */
  lemma WrappedAtTab(s: string, attr: Attributes, t: nat)
    requires attr.tabChar != '\n' && '\n' !in s && attr.FirstIndent() <= attr.width
    requires var free := attr.width - attr.FirstIndent();
             0 < free && t <= free && |s| > free + 2 && s[t] == attr.tabChar
             && forall i | t < i <= free :: s[i] != attr.tabChar
    ensures Hangs(s, attr) <==> attr.indent + t > attr.width
  {
    hide FindLast, FindFirst, Piece, Line.Consumed;
    var indent := attr.FirstIndent();
    var w := attr.width - indent;
    assert attr.Free(indent) == w && Window(s, w) == w;
    var tab := TabAt(s, w, attr.tabChar);
    assert tab == Some(t);
    var r := Untabbed(s, tab);
    assert |r| == |s| - 1 && r[w] == s[if w < t then w else w + 1];
    assert r[w] != '\n' && Width(s, w, tab) == w;
    var line := Piece(r, indent, w).value;
    ShortPiece(r, indent, w);
    assert r[|line.Consumed()|..] != "";
  }

  lemma ShortPiece(r: string, indent: nat, w: nat)
    requires 0 < w < |r|
    ensures |Piece(r, indent, w).value.Consumed()| <= w + 1
  {
    hide FindLast;
  }

  /** An example: the tab after eight letters and the later indent of five pass a width of ten. */
  lemma HangingLine(s: string, attr: Attributes)
    requires s == "aaaaaaaa\tbbb ccc" && attr == Attributes(0, 5, 10, '\t')
    ensures Hangs(s, attr) && !IndentsStay(s, attr.FirstIndent(), attr, true, MAX_LINES)
  {
    hide Hangs, IndentsStay;
    assert '\n' !in s && s[8] == '\t' && s[9] == 'b' && s[10] == 'b' && |s| == 16;
    WrappedAtTab(s, attr, 8);
    IndentsStayIff(s, attr, MAX_LINES);
  }

  /** As long as no indent passes the width, every line fits, tabs or not. */
  lemma {:induction false} TabbedLinesFit(remainder: string, indent: nat, attr: Attributes, first: bool, limit: nat)
    requires IndentsStay(remainder, indent, attr, first, limit)
    ensures forall l | l in Wrap(remainder, indent, attr, first, limit).lines && l.Line? :: |l.Render()| <= attr.width
    decreases limit
  {
    hide CutOne, Line.Render;
    if remainder != "" && limit > 0 && CutOne(remainder, indent, attr, first).Some? {
      var cut := CutOne(remainder, indent, attr, first).value;
      CutFits(remainder, indent, attr, first);
      TabbedLinesFit(cut.rest, cut.indent, attr, false, limit - 1);
    }
  }

  lemma CutFits(remainder: string, indent: nat, attr: Attributes, first: bool)
    requires remainder != "" && indent <= attr.width && CutOne(remainder, indent, attr, first).Some?
    ensures var line := CutOne(remainder, indent, attr, first).value.line;
            line.Line? && |line.Render()| <= attr.width
  {
    hide Piece, Window, TabAt, Untabbed, NextIndent, Spaces, Attributes.Free;
    assert attr.Free(indent) == attr.width - indent;
  }

  // ---------- what is kept ----------

  /** The text without spaces, newlines and tabs. */
  function Solid(s: string, tabChar: char): string {
    if s == "" then ""
    else (if Blank(s[0]) || s[0] == tabChar then "" else [s[0]]) + Solid(s[1..], tabChar)
  }

  lemma {:induction false} SolidConcat(a: string, b: string, tabChar: char)
    ensures Solid(a + b, tabChar) == Solid(a, tabChar) + Solid(b, tabChar)
  {
    if a == "" {
      assert a + b == b;
    } else {
      assert (a + b)[1..] == a[1..] + b;
      SolidConcat(a[1..], b, tabChar);
    }
  }

  lemma SolidUntabbed(s: string, tab: Option<nat>, tabChar: char)
    requires tab.Some? ==> tab.value < |s| && s[tab.value] == tabChar
    ensures Solid(Untabbed(s, tab), tabChar) == Solid(s, tabChar)
  {
    if tab.Some? {
      var t := tab.value;
      assert s == s[..t] + ([s[t]] + s[t + 1..]);
      SolidConcat(s[..t], s[t + 1..], tabChar);
      SolidConcat(s[..t], [s[t]] + s[t + 1..], tabChar);
    }
  }

  lemma SolidDropped(d: string, tabChar: char)
    requires d in {"", " ", "\n"}
    ensures Solid(d, tabChar) == ""
  {
    if d != "" {
      assert d[1..] == "";
    }
  }

  lemma CutKeeps(remainder: string, indent: nat, attr: Attributes, first: bool)
    requires remainder != "" && CutOne(remainder, indent, attr, first).Some?
    ensures var cut := CutOne(remainder, indent, attr, first).value;
            && cut.line.Line?
            && Solid(remainder, attr.tabChar) == Solid(cut.line.text, attr.tabChar) + Solid(cut.rest, attr.tabChar)
  {
    hide Piece, Window, FindLast, Solid, NextIndent, Attributes.Free;
    var cut := CutOne(remainder, indent, attr, first).value;
    var tab := TabAt(remainder, Window(remainder, attr.Free(indent)), attr.tabChar);
    SolidUntabbed(remainder, tab, attr.tabChar);
    PrefixAndRest(cut.line.Consumed(), Untabbed(remainder, tab));
    assert Untabbed(remainder, tab) == cut.line.text + (cut.line.dropped + cut.rest);
    SolidConcat(cut.line.text, cut.line.dropped + cut.rest, attr.tabChar);
    SolidConcat(cut.line.dropped, cut.rest, attr.tabChar);
    SolidDropped(cut.line.dropped, attr.tabChar);
  }

  /** Whatever the tabs and indents, a text wrapped to its end keeps its content: without indents, inserted
      hyphens, blanks and tabs the lines are the text without blanks and tabs. */
  lemma {:induction false} TabbedContentPreserved(
    remainder: string, indent: nat, attr: Attributes, first: bool, limit: nat)
    requires Wrap(remainder, indent, attr, first, limit).Done?
    requires Truncation !in Wrap(remainder, indent, attr, first, limit).lines
    ensures Solid(Texts(Wrap(remainder, indent, attr, first, limit).lines), attr.tabChar)
            == Solid(remainder, attr.tabChar)
    decreases limit
  {
    hide CutOne, Solid;
    if remainder != "" && limit > 0 {
      var cut := CutOne(remainder, indent, attr, first).value;
      var more := Wrap(cut.rest, cut.indent, attr, false, limit - 1).lines;
      CutKeeps(remainder, indent, attr, first);
      TabbedContentPreserved(cut.rest, cut.indent, attr, false, limit - 1);
      SolidConcat(cut.line.text, Texts(more), attr.tabChar);
    }
  }
}
