/** How the writer lays out its tags: each on a line of its own, indented by two blanks for each element
    around it. */
module XmlLayout {
  import opened XmlEncoding
  import opened XmlReading
  import opened XmlWriting

  predicate LineStart(s: string) {
    s == "" || s[|s| - 1] == '\n'
  }

  /** With no tag open and no newline due, the output is at the start of a line. */
  ghost predicate AtLineStart(w: Writer) {
    !w.tagIsOpen && !w.needsNewline ==> LineStart(w.os)
  }

  function Indent(depth: nat): (s: string)
    ensures |s| == 2 * depth && forall i | 0 <= i < |s| :: s[i] == ' '
  {
    seq(2 * depth, _ => ' ')
  }

  lemma CallKeepsLines(w: Writer, c: Call)
    requires Balanced(w) && AtLineStart(w) && Legal(w, c) && Callable(w, c)
    ensures AtLineStart(Perform(w, c))
  {
    hide Balanced, Encode;
  }

  lemma {:induction false} RunKeepsLines(w: Writer, calls: seq<Call>)
    requires Balanced(w) && AtLineStart(w) && AllLegal(w, calls)
    ensures AtLineStart(PerformAll(w, calls))
    decreases |calls|
  {
    hide Balanced, Perform, Legal, AtLineStart;
    if calls != [] {
      CallKeepsLines(w, calls[0]);
      LegalCallKeepsBalance(w, calls[0]);
      RunKeepsLines(Perform(w, calls[0]), calls[1..]);
    }
  }

  /** What the writer has written before a tag that begins or ends an element. */
  lemma BeforeTag(w: Writer) returns (before: string)
    requires Balanced(w) && AtLineStart(w)
    ensures LineStart(before) && w.os <= before && before == NewlineIfNecessary(EnsureTagClosed(w)).os
  {
    before := NewlineIfNecessary(EnsureTagClosed(w)).os;
    assert w.tagIsOpen ==> before == w.os + ">\n";
  }

  lemma IndentIs(w: Writer, n: nat)
    requires Balanced(w) && n <= |w.tags|
    ensures w.indent[..2 * n] == Indent(n)
  {
  }

  /** After any legal calls a start tag begins a line, behind two blanks for each element open. */
  lemma StartOnOwnLine(calls: seq<Call>, name: string) returns (before: string)
    requires AllLegal(FRESH, calls) && IsName(name)
    ensures var w := PerformAll(FRESH, calls);
            && w.os <= before && LineStart(before)
            && Started(w, name).os == before + Indent(|w.tags|) + ("<" + name)
  {
    hide IsName, PerformAll, AllLegal;
    LegalRunsAreBalanced(FRESH, calls);
    RunKeepsLines(FRESH, calls);
    var w := PerformAll(FRESH, calls);
    before := BeforeTag(w);
    IndentIs(w, |w.tags|);
    assert w.indent[..2 * |w.tags|] == w.indent;
    assert before + (w.indent + "<" + name) == before + w.indent + ("<" + name);
  }

  /** So does an end tag, behind two blanks for each element around its own. */
  lemma EndOnOwnLine(calls: seq<Call>) returns (before: string)
    requires AllLegal(FRESH, calls)
    ensures var w := PerformAll(FRESH, calls);
            w.tags != [] && !w.tagIsOpen ==>
              && |w.indent| >= 2 && w.os <= before && LineStart(before)
              && Ended(w).os == before + Indent(|w.tags| - 1) + ("</" + w.tags[|w.tags| - 1] + ">\n")
  {
    hide PerformAll, AllLegal;
    LegalRunsAreBalanced(FRESH, calls);
    RunKeepsLines(FRESH, calls);
    var w := PerformAll(FRESH, calls);
    before := BeforeTag(w);
    if w.tags != [] && !w.tagIsOpen {
      var n, last := |w.tags| - 1, w.tags[|w.tags| - 1];
      IndentIs(w, n);
      var b := w.indent[..2 * n];
      assert before + (b + "</" + last + ">\n") == before + b + ("</" + last + ">\n");
    }
  }
}
