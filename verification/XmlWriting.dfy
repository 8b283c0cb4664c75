/** The streaming XML writer. */
module XmlWriting {
  import opened XmlEncoding
  import opened XmlReading

  datatype Writer = Writer(tagIsOpen: bool, needsNewline: bool, tags: seq<string>, indent: string, os: string)

  const FRESH := Writer(false, false, [], "", "")

  /** The calls on a writer. `Attribute` stands for a string attribute, `BoolAttribute` and
      `ValueAttribute` for the overloads that do not encode what they write. */
  datatype Call =
    | StartElement(name: string)
    | EndElement
    | Attribute(name: string, value: string)
    | BoolAttribute(name: string, flag: bool)
    | ValueAttribute(name: string, value: string)
    | Text(text: string, indent: bool)
    | Comment(text: string)
    | BlankLine

  function Put(w: Writer, s: string): Writer {
    w.(os := w.os + s)
  }

  function EnsureTagClosed(w: Writer): Writer {
    if w.tagIsOpen then Put(w, ">\n").(tagIsOpen := false) else w
  }

  function NewlineIfNecessary(w: Writer): Writer {
    if w.needsNewline then Put(w, "\n").(needsNewline := false) else w
  }

  function Started(w: Writer, name: string): Writer {
    var v := NewlineIfNecessary(EnsureTagClosed(w));
    Put(v, v.indent + "<" + name).(tags := v.tags + [name], indent := v.indent + "  ", tagIsOpen := true)
  }

  function Ended(w: Writer): Writer
    requires w.tags != [] && |w.indent| >= 2
  {
    var v := NewlineIfNecessary(w);
    var u := v.(indent := v.indent[..|v.indent| - 2]);
    var last := u.tags[|u.tags| - 1];
    var closed := if u.tagIsOpen then Put(u, "/>\n").(tagIsOpen := false)
                  else Put(u, u.indent + "</" + last + ">\n");
    closed.(tags := u.tags[..|u.tags| - 1])
  }

  function Attributed(w: Writer, name: string, written: string): Writer {
    Put(w, " " + name + "=\"" + written + "\"")
  }

  function Texted(w: Writer, text: string, indent: bool): Writer {
    if text == "" then w
    else
      var v := EnsureTagClosed(w);
      var u := if w.tagIsOpen && indent then Put(v, v.indent) else v;
      Put(u, Encode(text)).(needsNewline := true)
  }

  function Commented(w: Writer, text: string): Writer {
    var v := EnsureTagClosed(w);
    Put(v, v.indent + ("<!--" + text + "-->")).(needsNewline := true)
  }

  /** A call the writer can carry out. */
  predicate Callable(w: Writer, c: Call) {
    c.EndElement? ==> w.tags != [] && |w.indent| >= 2
  }

  function Perform(w: Writer, c: Call): Writer
    requires Callable(w, c)
  {
    match c
    case StartElement(name) => Started(w, name)
    case EndElement => Ended(w)
    case Attribute(name, value) => if name != "" && value != "" then Attributed(w, name, Encode(value)) else w
    case BoolAttribute(name, flag) => Attributed(w, name, if flag then "true" else "false")
    case ValueAttribute(name, value) => if name != "" then Attributed(w, name, value) else w
    case Text(text, indent) => Texted(w, text, indent)
    case Comment(text) => Commented(w, text)
    case BlankLine => Put(EnsureTagClosed(w), "\n")
  }

  // ---------- balanced output ----------

  /** The name of an attribute, which stays inside the tag. */
  predicate AttributeName(s: string) {
    forall i | 0 <= i < |s| :: s[i] !in "<>/\""
  }

  predicate Unquoted(s: string) {
    forall i | 0 <= i < |s| :: s[i] != '<' && s[i] != '"'
  }

  /** A call in its place: elements are named, attributes come while the tag is open, an
      element is ended only if one is open, a comment does not hold its own end. */
  predicate Legal(w: Writer, c: Call) {
    match c
    case StartElement(name) => IsName(name)
    case EndElement => w.tags != []
    case Attribute(name, value) => w.tagIsOpen && AttributeName(name)
    case BoolAttribute(name, flag) => w.tagIsOpen && AttributeName(name)
    case ValueAttribute(name, value) => w.tagIsOpen && AttributeName(name) && Unquoted(value)
    case Text(text, indent) => true
    case Comment(text) => NoCommentEnd(text)
    case BlankLine => true
  }

  const START := Reader(InText, [])

  /** A reader of the output stands in a start tag exactly if the writer has one open, and
      finds exactly the writer's elements open. */
  predicate Reads(r: Reader, w: Writer) {
    && r.Reader?
    && if w.tagIsOpen then
         && w.tags != [] && r.open == w.tags[..|w.tags| - 1]
         && r.mode in {InName(w.tags[|w.tags| - 1]), InTag(w.tags[|w.tags| - 1])}
       else r.open == w.tags && r.mode == InText
  }

  ghost predicate Balanced(w: Writer) {
    && Reads(ReadAll(START, w.os), w)
    && (w.tagIsOpen ==> !w.needsNewline)
    && |w.indent| == 2 * |w.tags|
    && (forall i | 0 <= i < |w.indent| :: w.indent[i] == ' ')
    && (forall t | t in w.tags :: IsName(t))
  }

  lemma PutReads(w: Writer, s: string)
    ensures ReadAll(START, Put(w, s).os) == ReadAll(ReadAll(START, w.os), s)
  {
    ReadConcat(START, w.os, s);
  }

  lemma ReadPlain(open: seq<string>, s: string)
    requires forall i | 0 <= i < |s| :: s[i] != '<'
    ensures ReadAll(Reader(InText, open), s) == Reader(InText, open)
  {
    ReadKeeps(Reader(InText, open), s);
  }

  lemma ClosedIsBalanced(w: Writer)
    requires Balanced(w)
    ensures Balanced(EnsureTagClosed(w)) && !EnsureTagClosed(w).tagIsOpen
    ensures EnsureTagClosed(w).tags == w.tags && EnsureTagClosed(w).indent == w.indent
  {
    if w.tagIsOpen {
      PutReads(w, ">\n");
      var r := ReadAll(START, w.os);
      assert ">\n"[1..] == "\n";
      assert ReadAll(r, ">\n") == ReadAll(Read(r, '>'), "\n");
      assert Read(r, '>') == Reader(InText, w.tags) by {
        assert w.tags[..|w.tags| - 1] + [w.tags[|w.tags| - 1]] == w.tags;
      }
      ReadPlain(w.tags, "\n");
    }
  }

  lemma NewlineIsBalanced(w: Writer)
    requires Balanced(w)
    ensures Balanced(NewlineIfNecessary(w)) && NewlineIfNecessary(w).tagIsOpen == w.tagIsOpen
    ensures NewlineIfNecessary(w).tags == w.tags && NewlineIfNecessary(w).indent == w.indent
  {
    if w.needsNewline {
      PutReads(w, "\n");
      ReadPlain(w.tags, "\n");
    }
  }

  lemma StartedIsBalanced(w: Writer, name: string)
    requires Balanced(w) && IsName(name)
    ensures Balanced(Started(w, name))
  {
    hide EnsureTagClosed;
    ClosedIsBalanced(w);
    NewlineIsBalanced(EnsureTagClosed(w));
    var v := NewlineIfNecessary(EnsureTagClosed(w));
    assert v.indent + "<" + name == v.indent + ("<" + name);
    PutReads(v, v.indent + ("<" + name));
    ReadConcat(Reader(InText, v.tags), v.indent, "<" + name);
    ReadPlain(v.tags, v.indent);
    ReadStartTag(v.tags, name);
    var r := Started(w, name);
    assert r.tags[..|r.tags| - 1] == v.tags;
  }

  lemma EndedIsBalanced(w: Writer)
    requires Balanced(w) && w.tags != []
    ensures Balanced(Ended(w))
  {
    NewlineIsBalanced(w);
    var v := NewlineIfNecessary(w);
    var last, indent := v.tags[|v.tags| - 1], v.indent[..|v.indent| - 2];
    if v.tagIsOpen {
      PutReads(v, "/>\n");
      var r := ReadAll(START, v.os);
      ReadThree(r, "/>\n");
    } else {
      assert last in v.tags;
      assert indent + "</" + last + ">\n" == indent + ("</" + last + ">\n");
      PutReads(v, indent + ("</" + last + ">\n"));
      ReadConcat(Reader(InText, v.tags), indent, "</" + last + ">\n");
      ReadPlain(v.tags, indent);
      ReadEndTag(v.tags, last);
    }
  }

  lemma AttributedIsBalanced(w: Writer, name: string, written: string)
    requires Balanced(w) && w.tagIsOpen && AttributeName(name) && Unquoted(written)
    ensures Balanced(Attributed(w, name, written))
  {
    var r, tag, open := ReadAll(START, w.os), w.tags[|w.tags| - 1], w.tags[..|w.tags| - 1];
    var inTag, inValue := Reader(InTag(tag), open), Reader(InValue(tag), open);
    PutReads(w, " " + name + "=\"" + written + "\"");
    ReadConcat(r, " " + name + "=\"" + written, "\"");
    ReadConcat(r, " " + name + "=\"", written);
    ReadConcat(r, " " + name, "=\"");
    ReadConcat(r, " ", name);
    ReadOne(r, ' ');
    ReadKeeps(inTag, name);
    assert "=\""[1..] == "\"";
    assert ReadAll(inTag, "=\"") == ReadAll(inTag, "\"");
    ReadOne(inTag, '"');
    ReadKeeps(inValue, written);
    ReadOne(inValue, '"');
  }

  lemma TextedIsBalanced(w: Writer, text: string, indent: bool)
    requires Balanced(w)
    ensures Balanced(Texted(w, text, indent))
  {
    if text != "" {
      ClosedIsBalanced(w);
      var v := EnsureTagClosed(w);
      PutReads(v, v.indent);
      ReadPlain(v.tags, v.indent);
      var u := if w.tagIsOpen && indent then Put(v, v.indent) else v;
      PutReads(u, Encode(text));
      EncodedIsPlain(text);
      ReadPlain(v.tags, Encode(text));
    }
  }

  lemma CommentedIsBalanced(w: Writer, text: string)
    requires Balanced(w) && NoCommentEnd(text)
    ensures Balanced(Commented(w, text))
  {
    ClosedIsBalanced(w);
    var v := EnsureTagClosed(w);
    PutReads(v, v.indent + ("<!--" + text + "-->"));
    ReadConcat(Reader(InText, v.tags), v.indent, "<!--" + text + "-->");
    ReadPlain(v.tags, v.indent);
    ReadComment(v.tags, text);
  }

  lemma LegalCallKeepsBalance(w: Writer, c: Call)
    requires Balanced(w) && Legal(w, c)
    ensures Callable(w, c) && Balanced(Perform(w, c))
  {
    match c
    case StartElement(name) => StartedIsBalanced(w, name);
    case EndElement => EndedIsBalanced(w);
    case Attribute(name, value) =>
      EncodedIsPlain(value);
      if name != "" && value != "" { AttributedIsBalanced(w, name, Encode(value)); }
    case BoolAttribute(name, flag) => AttributedIsBalanced(w, name, if flag then "true" else "false");
    case ValueAttribute(name, value) => if name != "" { AttributedIsBalanced(w, name, value); }
    case Text(text, indent) => TextedIsBalanced(w, text, indent);
    case Comment(text) => CommentedIsBalanced(w, text);
    case BlankLine =>
      ClosedIsBalanced(w);
      PutReads(EnsureTagClosed(w), "\n");
      ReadPlain(w.tags, "\n");
  }

  ghost predicate AllLegal(w: Writer, calls: seq<Call>)
    decreases |calls|
  {
    calls == [] || (Legal(w, calls[0]) && Callable(w, calls[0]) && AllLegal(Perform(w, calls[0]), calls[1..]))
  }

  ghost function PerformAll(w: Writer, calls: seq<Call>): Writer
    requires AllLegal(w, calls)
    decreases |calls|
  {
    if calls == [] then w else PerformAll(Perform(w, calls[0]), calls[1..])
  }

  /** After any legal sequence of calls the output is balanced up to the elements in `tags`. */
  lemma {:induction false} LegalRunsAreBalanced(w: Writer, calls: seq<Call>)
    requires Balanced(w) && AllLegal(w, calls)
    ensures Balanced(PerformAll(w, calls))
    decreases |calls|
  {
    if calls != [] {
      LegalCallKeepsBalance(w, calls[0]);
      LegalRunsAreBalanced(Perform(w, calls[0]), calls[1..]);
    }
  }

  /** What the destructor writes. */
  ghost function Destroyed(w: Writer): Writer
    requires |w.indent| == 2 * |w.tags|
    decreases |w.tags|
  {
    if w.tags == [] then w else Destroyed(Ended(w))
  }

  /** The destructor leaves nothing open: the whole output is a balanced text. */
  lemma {:induction false} DestroyedIsComplete(w: Writer)
    requires Balanced(w)
    ensures ReadAll(START, Destroyed(w).os) == START
    decreases |w.tags|
  {
    if w.tags != [] {
      EndedIsBalanced(w);
      DestroyedIsComplete(Ended(w));
    }
  }

  lemma WholeDocument(calls: seq<Call>)
    requires AllLegal(FRESH, calls)
    ensures var w := PerformAll(FRESH, calls);
            |w.indent| == 2 * |w.tags| && ReadAll(START, Destroyed(w).os) == START
  {
    LegalRunsAreBalanced(FRESH, calls);
    DestroyedIsComplete(PerformAll(FRESH, calls));
  }
}
