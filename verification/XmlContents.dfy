/** What a reader of the writer's output collects: every element with the names and values of its attributes,
    every comment, and the text between them. */
module XmlContents {
  import opened XmlReading

  datatype Markup =
    | Beginning
    | StartTag(name: string, attributes: seq<(string, string)>)
    | EndTag(name: string)
    | Remark(text: string)

  /** A piece of markup and the characters up to the next. */
  datatype Chunk = Chunk(markup: Markup, data: string)

  /** The chunks read, the last of which may still grow; `attribute` and `part` are what has been read of an
      attribute or a comment. */
  datatype Collector = Collector(done: seq<Chunk>, last: Chunk, attribute: string, part: string) {
    function Begun(markup: Markup): Collector {
      Collector(done + [last], Chunk(markup, ""), "", "")
    }

    function WithData(s: string): Collector {
      this.(last := last.(data := last.data + s))
    }

    function WithPart(c: char): Collector {
      this.(part := part + [c])
    }

    /** The value of an attribute ends. */
    function WithAttribute(): Collector {
      if last.markup.StartTag? then
        var attributes := last.markup.attributes + [(attribute, part)];
        this.(last := last.(markup := last.markup.(attributes := attributes)), part := "")
      else this
    }
  }

  const NOTHING := Collector([], Chunk(Beginning, ""), "", "")

  /** What a character adds for a reader that stands at `r`. */
  function Collect(k: Collector, r: Reader, c: char): Collector {
    match r
    case Malformed => k
    case Reader(mode, _) =>
      match mode
      case InText => if c == '<' then k else k.WithData([c])
      case AfterLt => k
      case InName(n) =>
        if c == ' ' then k.Begun(StartTag(n, [])).WithPart(c)
        else if c == '>' || c == '/' then k.Begun(StartTag(n, []))
        else k
      case InTag(_) =>
        if c == '"' then k.(attribute := Inner(k.part), part := "")
        else if c == '>' || c == '/' then k
        else k.WithPart(c)
      case InValue(_) => if c == '"' then k.WithAttribute() else k.WithPart(c)
      case AfterSlash(n) => if c == '>' then k.Begun(EndTag(n)) else k
      case InClose(n) => if c == '>' then k.Begun(EndTag(n)) else k
      case InBang(_) => k.(part := "")
      case InComment(dashes) =>
        if c == '>' && dashes >= 2 && |k.part| >= 2 then k.Begun(Remark(k.part[..|k.part| - 2])) else k.WithPart(c)
  }

  /** The name of an attribute between the blank before it and the equals sign after it. */
  function Inner(part: string): string {
    if |part| < 2 then "" else part[1..|part| - 1]
  }

  function CollectAll(k: Collector, r: Reader, s: string): Collector
    decreases |s|
  {
    if s == "" then k else CollectAll(Collect(k, r, s[0]), Read(r, s[0]), s[1..])
  }

  lemma {:induction false} CollectConcat(k: Collector, r: Reader, a: string, b: string)
    ensures CollectAll(k, r, a + b) == CollectAll(CollectAll(k, r, a), ReadAll(r, a), b)
    decreases |a|
  {
    hide Collect, Read;
    if a == "" {
      assert a + b == b;
    } else {
      assert (a + b)[1..] == a[1..] + b;
      CollectConcat(Collect(k, r, a[0]), Read(r, a[0]), a[1..], b);
    }
  }

  lemma CollectOne(k: Collector, r: Reader, c: char)
    ensures CollectAll(k, r, [c]) == Collect(k, r, c)
  {
    assert [c][1..] == "";
  }

  // ---------- runs of characters ----------

  lemma {:induction false} CollectData(k: Collector, open: seq<string>, s: string)
    requires forall i | 0 <= i < |s| :: s[i] != '<'
    ensures CollectAll(k, Reader(InText, open), s) == k.WithData(s)
    decreases |s|
  {
    if s == "" {
      assert k.last.data + "" == k.last.data;
    } else {
      CollectData(k.WithData([s[0]]), open, s[1..]);
      assert k.last.data + [s[0]] + s[1..] == k.last.data + s;
    }
  }

  lemma {:induction false} CollectName(k: Collector, n: string, open: seq<string>, s: string)
    requires forall i | 0 <= i < |s| :: NameChar(s[i])
    ensures CollectAll(k, Reader(InName(n), open), s) == k
    ensures CollectAll(k, Reader(InClose(n), open), s) == k
    decreases |s|
  {
    if s != "" {
      CollectName(k, n + [s[0]], open, s[1..]);
    }
  }

  lemma {:induction false} CollectPart(k: Collector, r: Reader, s: string)
    requires forall i | 0 <= i < |s| :: Read(r, s[i]) == r && Collects(r, s[i])
    ensures CollectAll(k, r, s) == k.(part := k.part + s)
    decreases |s|
  {
    if s == "" {
      assert k.part + "" == k.part;
    } else {
      assert Collects(r, s[0]) && Read(r, s[0]) == r;
      forall i | 0 <= i < |s[1..]| ensures Read(r, s[1..][i]) == r && Collects(r, s[1..][i]) {
        assert s[1..][i] == s[i + 1];
      }
      CollectPart(k.WithPart(s[0]), r, s[1..]);
      assert k.part + [s[0]] + s[1..] == k.part + s;
    }
  }

  /** The character is added to what has been read of an attribute. */
  predicate Collects(r: Reader, c: char) {
    r.Reader? && c != '"' && (r.mode.InValue? || (r.mode.InTag? && c != '>' && c != '/'))
  }

  // ---------- tags and comments ----------

  lemma CollectStartTag(k: Collector, open: seq<string>, name: string)
    requires IsName(name)
    ensures CollectAll(k, Reader(InText, open), "<" + name) == k
  {
    var r := Reader(InText, open);
    CollectConcat(k, r, "<", name);
    CollectOne(k, r, '<');
    ReadOne(r, '<');
    assert CollectAll(k, Reader(AfterLt, open), name) == CollectAll(k, Reader(InName([name[0]]), open), name[1..]);
    CollectName(k, [name[0]], open, name[1..]);
  }

  lemma CollectSlash(k: Collector, open: seq<string>)
    ensures CollectAll(k, Reader(InText, open), "</") == k
    ensures ReadAll(Reader(InText, open), "</") == Reader(InClose(""), open)
  {
    var r := Reader(InText, open);
    assert "</"[1..] == "/";
    CollectOne(k, Reader(AfterLt, open), '/');
    ReadOne(Reader(AfterLt, open), '/');
  }

  lemma CollectTagEnd(k: Collector, open: seq<string>, name: string)
    requires open != [] && open[|open| - 1] == name
    ensures CollectAll(k, Reader(InClose(name), open), ">\n") == k.Begun(EndTag(name)).WithData("\n")
  {
    assert ">\n"[1..] == "\n";
    CollectOne(k.Begun(EndTag(name)), Reader(InText, open[..|open| - 1]), '\n');
  }

  lemma CollectEndTag(k: Collector, open: seq<string>, name: string)
    requires IsName(name) && open != [] && open[|open| - 1] == name
    ensures CollectAll(k, Reader(InText, open), "</" + name + ">\n") == k.Begun(EndTag(name)).WithData("\n")
  {
    hide CollectAll, ReadAll, Collect, Read;
    var r := Reader(InText, open);
    CollectConcat(k, r, "</" + name, ">\n");
    CollectConcat(k, r, "</", name);
    ReadConcat(r, "</", name);
    CollectSlash(k, open);
    CollectName(k, "", open, name);
    ReadNameRest("", open, name);
    assert "" + name == name;
    CollectTagEnd(k, open, name);
  }

  lemma {:induction false} CollectCommentText(k: Collector, open: seq<string>, s: string, n: nat)
    requires NoCommentEnd(s) && n <= |s| && k.part == ""
    ensures CollectAll(k, Reader(InComment(0), open), s[..n]) == k.(part := s[..n])
    decreases n
  {
    var r := Reader(InComment(0), open);
    if n > 0 {
      var c := s[n - 1];
      CollectCommentText(k, open, s, n - 1);
      ReadCommentText(open, s, n - 1);
      assert s[..n] == s[..n - 1] + [c];
      CollectConcat(k, r, s[..n - 1], [c]);
      CollectOne(k.(part := s[..n - 1]), Reader(InComment(TrailingDashes(s[..n - 1])), open), c);
      DashesThenBracket(s, n);
    }
  }

  lemma CollectThree(k: Collector, r: Reader, s: string)
    requires |s| == 3
    ensures CollectAll(k, r, s)
            == var r1 := Read(r, s[0]);
               Collect(Collect(Collect(k, r, s[0]), r1, s[1]), Read(r1, s[1]), s[2])
  {
    hide Collect, Read;
    assert s[1..][1..] == [s[2]];
    CollectOne(Collect(Collect(k, r, s[0]), Read(r, s[0]), s[1]), Read(Read(r, s[0]), s[1]), s[2]);
  }

  lemma CollectOpening(k: Collector, open: seq<string>)
    ensures CollectAll(k, Reader(InText, open), "<!--") == k.(part := "")
    ensures ReadAll(Reader(InText, open), "<!--") == Reader(InComment(0), open)
  {
    var r := Reader(InText, open);
    ReadFour(r, "<!--");
    assert "<!--"[1..] == "!--";
    CollectThree(k, Reader(AfterLt, open), "!--");
  }

  lemma TwoDashes(part: string)
    ensures var p := part + ['-'] + ['-']; |p| >= 2 && p[..|p| - 2] == part
  {
  }

  lemma CollectDash(k: Collector, open: seq<string>, d: nat)
    ensures Collect(k, Reader(InComment(d), open), '-') == k.WithPart('-')
    ensures Read(Reader(InComment(d), open), '-') == Reader(InComment(d + 1), open)
  {
  }

  lemma CollectBracket(k: Collector, open: seq<string>, d: nat)
    requires d >= 2 && |k.part| >= 2
    ensures Collect(k, Reader(InComment(d), open), '>') == k.Begun(Remark(k.part[..|k.part| - 2]))
  {
  }

  lemma CollectClosing(k: Collector, open: seq<string>, d: nat)
    ensures CollectAll(k, Reader(InComment(d), open), "-->") == k.Begun(Remark(k.part))
  {
    hide Collect, Read, CollectAll;
    CollectThree(k, Reader(InComment(d), open), "-->");
    CollectDash(k, open, d);
    CollectDash(k.WithPart('-'), open, d + 1);
    TwoDashes(k.part);
    CollectBracket(k.WithPart('-').WithPart('-'), open, d + 2);
  }

  lemma CollectComment(k: Collector, open: seq<string>, s: string)
    requires NoCommentEnd(s)
    ensures CollectAll(k, Reader(InText, open), "<!--" + s + "-->") == k.Begun(Remark(s))
  {
    hide CollectAll, Collect, Read, ReadAll, NoCommentEnd;
    var r := Reader(InText, open);
    CollectConcat(k, r, "<!--" + s, "-->");
    CollectConcat(k, r, "<!--", s);
    ReadConcat(r, "<!--", s);
    CollectOpening(k, open);
    CollectCommentText(k.(part := ""), open, s, |s|);
    ReadCommentText(open, s, |s|);
    assert s[..|s|] == s;
    CollectClosing(k.(part := s), open, TrailingDashes(s));
  }
}
