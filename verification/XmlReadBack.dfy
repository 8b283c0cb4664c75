/** The writer's output read back: a reader collects exactly the elements, attributes, texts and comments that
    were given. */
module XmlReadBack {
  import opened XmlEncoding
  import opened XmlReading
  import opened XmlWriting
  import opened XmlContents

  // ---------- what the calls say ----------

  /** An attribute as it was given; the value may have been written as it stands. */
  datatype Given = Given(name: string, value: string, encoded: bool)

  datatype SaidMarkup =
    | Nothing
    | Element(name: string, attributes: seq<Given>)
    | End(name: string)
    | Note(text: string)

  /** A piece of markup and the texts given after it. */
  datatype Said = Said(markup: SaidMarkup, texts: seq<string>)

  function WithAttribute(said: seq<Said>, a: Given): (r: seq<Said>)
    requires said != []
    ensures |r| == |said|
  {
    var n := |said| - 1;
    if said[n].markup.Element? then
      said[n := said[n].(markup := said[n].markup.(attributes := said[n].markup.attributes + [a]))]
    else said
  }

  function WithText(said: seq<Said>, text: string): (r: seq<Said>)
    requires said != []
    ensures |r| == |said|
  {
    var n := |said| - 1;
    said[n := said[n].(texts := said[n].texts + [text])]
  }

  /** What has been said after a call, with the elements `tags` open before it. */
  function Say(said: seq<Said>, c: Call, tags: seq<string>): (r: seq<Said>)
    requires said != []
    ensures r != []
  {
    match c
    case StartElement(name) => said + [Said(Element(name, []), [])]
    case EndElement => if tags == [] then said else said + [Said(End(tags[|tags| - 1]), [])]
    case Attribute(name, value) =>
      if name != "" && value != "" then WithAttribute(said, Given(name, value, true)) else said
    case BoolAttribute(name, flag) => WithAttribute(said, Given(name, if flag then "true" else "false", false))
    case ValueAttribute(name, value) => if name != "" then WithAttribute(said, Given(name, value, false)) else said
    case Text(text, _) => if text != "" then WithText(said, text) else said
    case Comment(text) => said + [Said(Note(text), [])]
    case BlankLine => said
  }

  const SILENCE := [Said(Nothing, [])]

  // ---------- what is read is what was said ----------

  predicate AllBlank(s: string) {
    forall i | 0 <= i < |s| :: s[i] == ' ' || s[i] == '\n'
  }

  /** The texts one after another, with nothing but blanks and newlines around them. */
  ghost predicate Layout(data: string, texts: seq<string>)
    decreases |texts|
  {
    if texts == [] then AllBlank(data)
    else
      var last := texts[|texts| - 1];
      exists n: nat ::
        LastText(data, last, n) && |last| <= n <= |data| && Layout(data[..n - |last|], texts[..|texts| - 1])
  }

  predicate LastText(data: string, text: string, n: nat) {
    |text| <= n <= |data| && data[n - |text|..n] == text && AllBlank(data[n..])
  }

  predicate SameAttribute(read: (string, string), given: Given) {
    read.0 == given.name && (if given.encoded then Decode(read.1) else read.1) == given.value
  }

  ghost predicate SameMarkup(m: Markup, s: SaidMarkup) {
    match s
    case Nothing => m.Beginning?
    case Element(name, attributes) =>
      && m.StartTag? && m.name == name && |m.attributes| == |attributes|
      && forall i | 0 <= i < |attributes| :: SameAttribute(m.attributes[i], attributes[i])
    case End(name) => m == EndTag(name)
    case Note(text) => m == Remark(text)
  }

  /** The characters after the markup are the encoded texts, laid out. */
  ghost predicate SameChunk(c: Chunk, s: Said) {
    && SameMarkup(c.markup, s.markup)
    && c.data == Encode(Decode(c.data)) && Layout(Decode(c.data), s.texts)
  }

  ghost predicate SameChunks(chunks: seq<Chunk>, said: seq<Said>) {
    |chunks| == |said| && forall i | 0 <= i < |said| :: SameChunk(chunks[i], said[i])
  }

  // ---------- layout ----------

  lemma LayoutText(data: string, texts: seq<string>, text: string)
    requires Layout(data, texts)
    ensures Layout(data + text, texts + [text])
  {
    var d, ts := data + text, texts + [text];
    assert ts[..|ts| - 1] == texts && d[..|d| - |text|] == data;
    assert d[|d| - |text|..|d|] == text && d[|d|..] == "";
    assert LastText(d, ts[|ts| - 1], |d|) && Layout(d[..|d| - |text|], ts[..|ts| - 1]);
  }

  lemma BlankConcat(a: string, b: string)
    requires AllBlank(a) && AllBlank(b)
    ensures AllBlank(a + b)
  {
  }

  lemma LastTextBlank(data: string, text: string, n: nat, b: string)
    requires LastText(data, text, n) && AllBlank(b)
    ensures LastText(data + b, text, n) && (data + b)[..n - |text|] == data[..n - |text|]
  {
    hide AllBlank;
    var d := data + b;
    assert d[n..] == data[n..] + b && d[n - |text|..n] == data[n - |text|..n];
    BlankConcat(data[n..], b);
  }

  lemma LayoutBlank(data: string, texts: seq<string>, b: string)
    requires Layout(data, texts) && AllBlank(b)
    ensures Layout(data + b, texts)
  {
    hide AllBlank, LastText;
    if texts == [] {
      BlankConcat(data, b);
    } else {
      var last := texts[|texts| - 1];
      var n: nat :|
        LastText(data, last, n) && |last| <= n <= |data| && Layout(data[..n - |last|], texts[..|texts| - 1]);
      LastTextBlank(data, last, n, b);
      assert LastText(data + b, last, n);
    }
  }

  lemma BlankIsPlain(b: string)
    requires AllBlank(b)
    ensures Encode(b) == b
  {
    EncodePlain(b);
  }

  lemma DataGrows(data: string, more: string)
    requires data == Encode(Decode(data))
    ensures var d := data + Encode(more); Decode(d) == Decode(data) + more && d == Encode(Decode(d))
  {
    EncodeConcat(Decode(data), more);
    DecodeEncode(Decode(data) + more);
  }

  lemma ChunkBlank(c: Chunk, s: Said, b: string)
    requires SameChunk(c, s) && AllBlank(b)
    ensures SameChunk(c.(data := c.data + b), s)
  {
    hide Encode, Decode, Layout, AllBlank;
    BlankIsPlain(b);
    DataGrows(c.data, b);
    LayoutBlank(Decode(c.data), s.texts, b);
  }

  lemma ChunkText(c: Chunk, s: Said, text: string)
    requires SameChunk(c, s)
    ensures SameChunk(c.(data := c.data + Encode(text)), s.(texts := s.texts + [text]))
  {
    hide Encode, Decode, Layout;
    DataGrows(c.data, text);
    LayoutText(Decode(c.data), s.texts, text);
  }

  lemma EmptyChunk(m: Markup, s: SaidMarkup)
    requires SameMarkup(m, s)
    ensures SameChunk(Chunk(m, ""), Said(s, []))
  {
  }

  // ---------- what a reader has collected ----------

  ghost function Collected(w: Writer): Collector {
    CollectAll(NOTHING, START, w.os)
  }

  /** The chunks collected, with a start tag whose name is still being read. */
  function Chunks(k: Collector, r: Reader): seq<Chunk> {
    if r.Reader? && r.mode.InName? then k.done + [k.last, Chunk(StartTag(r.mode.name, []), "")] else k.done + [k.last]
  }

  /** What has been collected is what was said; while a start tag is open no text has been given in it. */
  ghost predicate ReadBack(w: Writer, said: seq<Said>) {
    && said != []
    && SameChunks(Chunks(Collected(w), ReadAll(START, w.os)), said)
    && (w.tagIsOpen ==>
          && said[|said| - 1].markup.Element? && said[|said| - 1].texts == []
          && (ReadAll(START, w.os).Reader? && ReadAll(START, w.os).mode.InTag? ==>
                Collected(w).part == "" && Collected(w).last.data == ""))
  }

  lemma PutCollects(w: Writer, s: string)
    ensures Collected(Put(w, s)) == CollectAll(Collected(w), ReadAll(START, w.os), s)
  {
    CollectConcat(NOTHING, START, w.os, s);
  }

  /** The last chunk may grow. */
  lemma LastGrows(chunks: seq<Chunk>, said: seq<Said>, c: Chunk, s: Said)
    requires SameChunks(chunks, said) && chunks != [] && SameChunk(c, s)
    ensures SameChunks(chunks[..|chunks| - 1] + [c], said[..|said| - 1] + [s])
  {
    hide SameChunk;
  }

  lemma LastSame(chunks: seq<Chunk>, said: seq<Said>)
    requires SameChunks(chunks, said) && chunks != []
    ensures |said| == |chunks| && SameChunk(chunks[|chunks| - 1], said[|said| - 1])
  {
    hide SameChunk;
  }

  /** A new chunk may follow. */
  lemma NextChunk(chunks: seq<Chunk>, said: seq<Said>, c: Chunk, s: Said)
    requires SameChunks(chunks, said) && SameChunk(c, s)
    ensures SameChunks(chunks + [c], said + [s])
  {
    hide SameChunk;
  }

  lemma LastBlank(chunks: seq<Chunk>, said: seq<Said>, b: string)
    requires SameChunks(chunks, said) && chunks != [] && AllBlank(b)
    ensures var c := chunks[|chunks| - 1];
            SameChunks(chunks[..|chunks| - 1] + [c.(data := c.data + b)], said)
  {
    hide SameChunk, AllBlank, SameChunks;
    var c := chunks[|chunks| - 1];
    LastSame(chunks, said);
    ChunkBlank(c, said[|said| - 1], b);
    LastGrows(chunks, said, c.(data := c.data + b), said[|said| - 1]);
    assert said[..|said| - 1] + [said[|said| - 1]] == said;
  }

  /** In the text of an element: what a reader has collected after `s`. */
  lemma InTextCollects(w: Writer, s: string)
    requires Balanced(w) && !w.tagIsOpen
    ensures var k := Collected(w);
            && Chunks(k, ReadAll(START, w.os)) == k.done + [k.last]
            && Collected(Put(w, s)) == CollectAll(k, Reader(InText, w.tags), s)
            && ReadAll(START, Put(w, s).os) == ReadAll(Reader(InText, w.tags), s)
  {
    hide CollectAll;
    PutCollects(w, s);
    PutReads(w, s);
  }

  lemma BlankReadBack(w: Writer, said: seq<Said>, b: string)
    requires Balanced(w) && ReadBack(w, said) && !w.tagIsOpen && AllBlank(b)
    ensures ReadBack(Put(w, b), said)
  {
    hide SameChunk, CollectAll, SameChunks;
    var k := Collected(w);
    InTextCollects(w, b);
    ReadPlain(w.tags, b);
    CollectData(k, w.tags, b);
    LastBlank(k.done + [k.last], said, b);
    assert (k.done + [k.last])[..|k.done|] == k.done;
  }

  /** With a start tag open: the reader stands in its name or behind it. */
  lemma OpenTag(w: Writer)
    requires Balanced(w) && w.tagIsOpen
    ensures var r, n := ReadAll(START, w.os), w.tags[|w.tags| - 1];
            r == Reader(InName(n), w.tags[..|w.tags| - 1]) || r == Reader(InTag(n), w.tags[..|w.tags| - 1])
  {
  }

  lemma CloseReadBack(w: Writer, said: seq<Said>)
    requires Balanced(w) && ReadBack(w, said)
    ensures ReadBack(EnsureTagClosed(w), said)
  {
    hide SameChunk, SameChunks, CollectAll;
    if w.tagIsOpen {
      var k, r := Collected(w), ReadAll(START, w.os);
      var chunks := Chunks(k, r);
      PutCollects(w, ">\n");
      ClosedIsBalanced(w);
      OpenTag(w);
      TagEnds(k, r, ">\n");
      LastBlank(chunks, said, "\n");
      var l := CollectAll(k, r, ">\n");
      var c := chunks[|chunks| - 1];
      assert l.done + [l.last] == chunks[..|chunks| - 1] + [c.(data := c.data + "\n")];
    }
  }

  /** Either end of a start tag. */
  lemma TagEnds(k: Collector, r: Reader, s: string)
    requires r.Reader? && (r.mode.InName? || (r.mode.InTag? && k.last.data == "")) && s in {">\n", "/>\n"}
    ensures var l, chunks := CollectAll(k, r, s), Chunks(k, r);
            && (s == ">\n" ==> l.done == chunks[..|chunks| - 1]
                               && l.last == chunks[|chunks| - 1].(data := chunks[|chunks| - 1].data + "\n"))
            && (s == "/>\n" ==> l.done == chunks && l.last == Chunk(EndTag(r.mode.name), "\n"))
  {
    if s == ">\n" {
      assert s[1..] == "\n" && s[1..][1..] == "";
    } else {
      CollectThree(k, r, s);
    }
  }

  lemma NewlineReadBack(w: Writer, said: seq<Said>)
    requires Balanced(w) && ReadBack(w, said)
    ensures ReadBack(NewlineIfNecessary(w), said)
  {
    hide SameChunks, CollectAll;
    if w.needsNewline {
      BlankReadBack(w, said, "\n");
    }
  }

  lemma SpacesAreBlank(w: Writer, n: nat)
    requires Balanced(w) && n <= |w.indent|
    ensures AllBlank(w.indent) && AllBlank(w.indent[..n])
  {
  }

  lemma StartedReadBack(w: Writer, said: seq<Said>, name: string)
    requires Balanced(w) && ReadBack(w, said) && IsName(name)
    ensures ReadBack(Started(w, name), said + [Said(Element(name, []), [])])
  {
    hide SameChunk, SameChunks, CollectAll, EnsureTagClosed, NewlineIfNecessary, IsName;
    CloseReadBack(w, said);
    ClosedIsBalanced(w);
    NewlineReadBack(EnsureTagClosed(w), said);
    NewlineIsBalanced(EnsureTagClosed(w));
    var v := NewlineIfNecessary(EnsureTagClosed(w));
    SpacesAreBlank(v, 0);
    var u := Put(v, v.indent);
    BlankReadBack(v, said, v.indent);
    BlankIsBalanced(v, v.indent);
    var k := Collected(u);
    InTextCollects(u, "<" + name);
    CollectStartTag(k, u.tags, name);
    ReadStartTag(u.tags, name);
    EmptyChunk(StartTag(name, []), Element(name, []));
    NextChunk(k.done + [k.last], said, Chunk(StartTag(name, []), ""), Said(Element(name, []), []));
    assert k.done + [k.last] + [Chunk(StartTag(name, []), "")] == k.done + [k.last, Chunk(StartTag(name, []), "")];
    assert Started(w, name).os == Put(u, "<" + name).os by {
      assert v.os + (v.indent + "<" + name) == v.os + v.indent + ("<" + name);
    }
  }

  lemma BlankIsBalanced(w: Writer, b: string)
    requires Balanced(w) && !w.tagIsOpen && AllBlank(b)
    ensures Balanced(Put(w, b))
  {
    PutReads(w, b);
    ReadPlain(w.tags, b);
  }

  /** The end of an element whose start tag is still open. */
  lemma EmptyEndReadBack(v: Writer, said: seq<Said>)
    requires Balanced(v) && ReadBack(v, said) && v.tagIsOpen
    ensures ReadBack(Put(v, "/>\n").(tagIsOpen := false), said + [Said(End(v.tags[|v.tags| - 1]), [])])
  {
    hide SameChunk, SameChunks, CollectAll;
    var k, r := Collected(v), ReadAll(START, v.os);
    PutCollects(v, "/>\n");
    PutReads(v, "/>\n");
    OpenTag(v);
    ReadThree(r, "/>\n");
    TagEnds(k, r, "/>\n");
    EndChunk(Chunks(k, r), said, v.tags[|v.tags| - 1]);
  }

  lemma EndTagReadBack(u: Writer, said: seq<Said>)
    requires Balanced(u) && ReadBack(u, said) && !u.tagIsOpen && u.tags != []
    ensures var last := u.tags[|u.tags| - 1];
            ReadBack(Put(u, "</" + last + ">\n"), said + [Said(End(last), [])])
  {
    hide SameChunk, SameChunks, CollectAll;
    var k, last := Collected(u), u.tags[|u.tags| - 1];
    assert last in u.tags;
    InTextCollects(u, "</" + last + ">\n");
    CollectEndTag(k, u.tags, last);
    ReadEndTag(u.tags, last);
    EndChunk(k.done + [k.last], said, last);
    assert k.Begun(EndTag(last)).WithData("\n").last == Chunk(EndTag(last), "\n") by {
      assert "" + "\n" == "\n";
    }
  }

  /** Only the output counts, and whether a tag is open. */
  lemma SameOutput(u: Writer, w: Writer, said: seq<Said>)
    requires ReadBack(u, said) && u.os == w.os && u.tagIsOpen == w.tagIsOpen
    ensures ReadBack(w, said)
  {
    hide SameChunks, CollectAll, ReadAll;
  }

  lemma RegroupFive(a: string, b: string, c: string, d: string, e: string)
    ensures a + (b + c + d + e) == a + b + (c + d + e)
  {
    assert b + c + d + e == b + (c + d + e);
  }

  lemma EndedReadBack(w: Writer, said: seq<Said>)
    requires Balanced(w) && ReadBack(w, said) && w.tags != []
    ensures ReadBack(Ended(w), said + [Said(End(w.tags[|w.tags| - 1]), [])])
  {
    hide ReadBack, NewlineIfNecessary;
    NewlineReadBack(w, said);
    NewlineIsBalanced(w);
    var v := NewlineIfNecessary(w);
    var last := v.tags[|v.tags| - 1];
    var more := said + [Said(End(last), [])];
    if v.tagIsOpen {
      EmptyEndReadBack(v, said);
      SameOutput(Put(v, "/>\n").(tagIsOpen := false), Ended(w), more);
    } else {
      var b := v.indent[..|v.indent| - 2];
      SpacesAreBlank(v, |v.indent| - 2);
      BlankReadBack(v, said, b);
      BlankIsBalanced(v, b);
      EndTagReadBack(Put(v, b), said);
      RegroupFive(v.os, b, "</", last, ">\n");
      SameOutput(Put(Put(v, b), "</" + last + ">\n"), Ended(w), more);
    }
  }

  lemma EndChunk(chunks: seq<Chunk>, said: seq<Said>, name: string)
    requires SameChunks(chunks, said)
    ensures SameChunks(chunks + [Chunk(EndTag(name), "\n")], said + [Said(End(name), [])])
  {
    hide SameChunk, SameChunks;
    EmptyChunk(EndTag(name), End(name));
    assert AllBlank("\n");
    ChunkBlank(Chunk(EndTag(name), ""), Said(End(name), []), "\n");
    assert "" + "\n" == "\n";
    NextChunk(chunks, said, Chunk(EndTag(name), "\n"), Said(End(name), []));
  }

  /** A reader that stands in a start tag, with nothing read of the next attribute. */
  ghost predicate InStartTag(k: Collector, r: Reader) {
    && r.Reader?
    && (|| r.mode.InName?
        || (r.mode.InTag? && k.part == "" && k.last.data == "" && k.last.markup.StartTag?))
  }

  /** The collector once the name of the tag has ended. */
  function Named(k: Collector, r: Reader): Collector
    requires r.Reader?
  {
    if r.mode.InName? then k.Begun(StartTag(r.mode.name, [])) else k
  }

  lemma OpenAttribute(k: Collector, r: Reader, name: string)
    requires InStartTag(k, r) && (r.mode.InName? || r.mode.InTag?) && AttributeName(name)
    ensures var opening := " " + name + "=";
            && CollectAll(k, r, opening) == Named(k, r).(part := opening)
            && ReadAll(r, opening) == Reader(InTag(r.mode.name), r.open)
  {
    var inTag, rest := Reader(InTag(r.mode.name), r.open), name + "=";
    assert " " + name + "=" == " " + rest;
    CollectConcat(k, r, " ", rest);
    ReadConcat(r, " ", rest);
    CollectOne(k, r, ' ');
    ReadOne(r, ' ');
    assert "" + " " == " ";
    CollectPart(Named(k, r).(part := " "), inTag, rest);
    ReadKeeps(inTag, rest);
  }

  lemma ReadValue(k: Collector, r: Reader, written: string)
    requires r.Reader? && r.mode.InValue? && k.part == "" && k.last.markup.StartTag? && Unquoted(written)
    ensures CollectAll(k, r, written + "\"") == k.(part := written).WithAttribute()
    ensures ReadAll(r, written + "\"") == Reader(InTag(r.mode.name), r.open)
  {
    CollectConcat(k, r, written, "\"");
    ReadConcat(r, written, "\"");
    CollectPart(k, r, written);
    ReadKeeps(r, written);
    assert "" + written == written;
    CollectOne(k.(part := written), r, '"');
    ReadOne(r, '"');
  }

  /** The characters of an attribute, from either place in a start tag. */
  lemma CollectAttribute(k: Collector, r: Reader, name: string, written: string)
    requires InStartTag(k, r) && AttributeName(name) && Unquoted(written)
    ensures var l, n := CollectAll(k, r, " " + name + "=\"" + written + "\""), Named(k, r);
            && ReadAll(r, " " + name + "=\"" + written + "\"") == Reader(InTag(r.mode.name), r.open)
            && l.part == "" && l.done == n.done && n.last.markup.StartTag?
            && l.last == n.last.(markup := n.last.markup.(attributes := n.last.markup.attributes + [(name, written)]))
  {
    hide CollectAll, ReadAll, AttributeName, Unquoted;
    var inTag, inValue := Reader(InTag(r.mode.name), r.open), Reader(InValue(r.mode.name), r.open);
    var opening, value := " " + name + "=", written + "\"";
    var n := Named(k, r);
    OpenAttribute(k, r, name);
    assert " " + name + "=\"" + written + "\"" == opening + ("\"" + value);
    CollectConcat(k, r, opening, "\"" + value);
    ReadConcat(r, opening, "\"" + value);
    CollectConcat(n.(part := opening), inTag, "\"", value);
    ReadConcat(inTag, "\"", value);
    CollectOne(n.(part := opening), inTag, '"');
    ReadOne(inTag, '"');
    assert Inner(opening) == name;
    ReadValue(n.(attribute := name, part := ""), inValue, written);
  }

  lemma ChunkAttribute(c: Chunk, s: Said, name: string, written: string, a: Given)
    requires SameChunk(c, s) && s.markup.Element? && SameAttribute((name, written), a)
    ensures SameChunk(c.(markup := c.markup.(attributes := c.markup.attributes + [(name, written)])),
                      s.(markup := s.markup.(attributes := s.markup.attributes + [a])))
  {
    hide Encode, Decode, Layout, SameAttribute;
  }

  lemma AttributedReadBack(w: Writer, said: seq<Said>, name: string, written: string, a: Given)
    requires Balanced(w) && ReadBack(w, said) && w.tagIsOpen && AttributeName(name) && Unquoted(written)
    requires SameAttribute((name, written), a)
    ensures ReadBack(Attributed(w, name, written), WithAttribute(said, a))
  {
    hide SameChunk, SameChunks, CollectAll, SameAttribute, AttributeName, Unquoted;
    var k, r, s := Collected(w), ReadAll(START, w.os), " " + name + "=\"" + written + "\"";
    var chunks := Chunks(k, r);
    OpenTag(w);
    PutCollects(w, s);
    PutReads(w, s);
    LastSame(chunks, said);
    ElementIsTag(chunks[|chunks| - 1], said[|said| - 1]);
    CollectAttribute(k, r, name, written);
    var l := CollectAll(k, r, s);
    var c := chunks[|chunks| - 1];
    ChunkAttribute(c, said[|said| - 1], name, written, a);
    LastGrows(chunks, said, l.last, WithAttribute(said, a)[|said| - 1]);
    assert chunks[..|chunks| - 1] + [l.last] == l.done + [l.last];
    assert said[..|said| - 1] + [WithAttribute(said, a)[|said| - 1]] == WithAttribute(said, a);
  }

  lemma ElementIsTag(c: Chunk, s: Said)
    requires SameChunk(c, s) && s.markup.Element?
    ensures c.markup.StartTag?
  {
  }

  lemma TextedReadBack(w: Writer, said: seq<Said>, text: string, indent: bool)
    requires Balanced(w) && ReadBack(w, said) && text != ""
    ensures ReadBack(Texted(w, text, indent), WithText(said, text))
  {
    hide SameChunk, SameChunks, CollectAll, EnsureTagClosed, Encode;
    CloseReadBack(w, said);
    ClosedIsBalanced(w);
    var v := EnsureTagClosed(w);
    SpacesAreBlank(v, 0);
    BlankReadBack(v, said, v.indent);
    BlankIsBalanced(v, v.indent);
    var u := if w.tagIsOpen && indent then Put(v, v.indent) else v;
    var k := Collected(u);
    InTextCollects(u, Encode(text));
    EncodedIsPlain(text);
    CollectData(k, u.tags, Encode(text));
    ReadPlain(u.tags, Encode(text));
    LastSame(k.done + [k.last], said);
    ChunkText(k.last, said[|said| - 1], text);
    LastGrows(k.done + [k.last], said, k.WithData(Encode(text)).last, WithText(said, text)[|said| - 1]);
    assert (k.done + [k.last])[..|k.done|] == k.done;
    assert said[..|said| - 1] + [WithText(said, text)[|said| - 1]] == WithText(said, text);
  }

  lemma CommentedReadBack(w: Writer, said: seq<Said>, text: string)
    requires Balanced(w) && ReadBack(w, said) && NoCommentEnd(text)
    ensures ReadBack(Commented(w, text), said + [Said(Note(text), [])])
  {
    hide SameChunk, SameChunks, CollectAll, EnsureTagClosed, NoCommentEnd;
    CloseReadBack(w, said);
    ClosedIsBalanced(w);
    var v := EnsureTagClosed(w);
    SpacesAreBlank(v, 0);
    BlankReadBack(v, said, v.indent);
    BlankIsBalanced(v, v.indent);
    var u := Put(v, v.indent);
    var k := Collected(u);
    InTextCollects(u, "<!--" + text + "-->");
    CollectComment(k, u.tags, text);
    ReadComment(u.tags, text);
    EmptyChunk(Remark(text), Note(text));
    NextChunk(k.done + [k.last], said, Chunk(Remark(text), ""), Said(Note(text), []));
    assert Commented(w, text).os == Put(u, "<!--" + text + "-->").os;
  }

  // ---------- runs of calls ----------

  lemma CallReadBack(w: Writer, said: seq<Said>, c: Call)
    requires Balanced(w) && ReadBack(w, said) && Legal(w, c)
    ensures Callable(w, c) && ReadBack(Perform(w, c), Say(said, c, w.tags))
  {
    hide ReadBack, Encode, Decode, AttributeName, Unquoted, IsName, NoCommentEnd, EnsureTagClosed;
    match c
    case StartElement(name) => StartedReadBack(w, said, name);
    case EndElement => EndedReadBack(w, said);
    case Attribute(name, value) =>
      EncodedIsUnquoted(value);
      DecodeEncode(value);
      if name != "" && value != "" {
        AttributedReadBack(w, said, name, Encode(value), Given(name, value, true));
      }
    case BoolAttribute(name, flag) =>
      var written := if flag then "true" else "false";
      FlagIsUnquoted(flag);
      AttributedReadBack(w, said, name, written, Given(name, written, false));
    case ValueAttribute(name, value) =>
      if name != "" {
        AttributedReadBack(w, said, name, value, Given(name, value, false));
      }
    case Text(text, indent) => if text != "" { TextedReadBack(w, said, text, indent); }
    case Comment(text) => CommentedReadBack(w, said, text);
    case BlankLine =>
      CloseReadBack(w, said);
      ClosedIsBalanced(w);
      BlankReadBack(EnsureTagClosed(w), said, "\n");
  }

  lemma EncodedIsUnquoted(value: string)
    ensures Unquoted(Encode(value))
  {
    EncodedIsPlain(value);
  }

  lemma FlagIsUnquoted(flag: bool)
    ensures Unquoted(if flag then "true" else "false")
  {
  }

  ghost function SayAll(w: Writer, said: seq<Said>, calls: seq<Call>): seq<Said>
    requires AllLegal(w, calls) && said != []
    decreases |calls|
  {
    if calls == [] then said else SayAll(Perform(w, calls[0]), Say(said, calls[0], w.tags), calls[1..])
  }

  lemma {:induction false} RunReadBack(w: Writer, said: seq<Said>, calls: seq<Call>)
    requires Balanced(w) && ReadBack(w, said) && AllLegal(w, calls)
    ensures ReadBack(PerformAll(w, calls), SayAll(w, said, calls))
    decreases |calls|
  {
    assert said != [];
    hide Balanced, ReadBack, Perform, Say, Legal;
    if calls != [] {
      CallReadBack(w, said, calls[0]);
      LegalCallKeepsBalance(w, calls[0]);
      RunReadBack(Perform(w, calls[0]), Say(said, calls[0], w.tags), calls[1..]);
    }
  }

  /** The ends the destructor adds. */
  function EndAll(said: seq<Said>, tags: seq<string>): seq<Said>
    decreases |tags|
  {
    if tags == [] then said else EndAll(said + [Said(End(tags[|tags| - 1]), [])], tags[..|tags| - 1])
  }

  lemma {:induction false} DestroyedReadBack(w: Writer, said: seq<Said>)
    requires Balanced(w) && ReadBack(w, said)
    ensures ReadBack(Destroyed(w), EndAll(said, w.tags)) && Balanced(Destroyed(w)) && Destroyed(w).tags == []
    decreases |w.tags|
  {
    hide ReadBack;
    if w.tags != [] {
      EndedReadBack(w, said);
      EndedIsBalanced(w);
      DestroyedReadBack(Ended(w), said + [Said(End(w.tags[|w.tags| - 1]), [])]);
    }
  }

  /** Of a whole document, the chunks a reader collects are those that were given: every element, attribute and
      comment in order, and between them every text in order with nothing but blanks around it. */
  lemma DocumentReadBack(calls: seq<Call>)
    requires AllLegal(FRESH, calls)
    ensures var w := PerformAll(FRESH, calls);
            && |w.indent| == 2 * |w.tags|
            && var k := CollectAll(NOTHING, START, Destroyed(w).os);
               SameChunks(k.done + [k.last], EndAll(SayAll(FRESH, SILENCE, calls), w.tags))
  {
    hide SayAll, PerformAll, AllLegal, SameChunks;
    NothingSaid();
    LegalRunsAreBalanced(FRESH, calls);
    RunReadBack(FRESH, SILENCE, calls);
    var w := PerformAll(FRESH, calls);
    DestroyedReadBack(w, SayAll(FRESH, SILENCE, calls));
  }

  lemma NothingSaid()
    ensures ReadBack(FRESH, SILENCE) && Balanced(FRESH)
  {
  }
}
