/** A reader of XML text, character by character, that checks the matching of start and end
    tags (section 3.1 of XML 1.0): which elements are open, and where in a tag it stands. */
module XmlReading {
  import opened Basics

  datatype Mode =
    | InText
    | AfterLt
    | InName(name: string)
    | InTag(name: string)
    | InValue(name: string)
    | AfterSlash(name: string)
    | InClose(name: string)
    | InBang(seen: nat)
    | InComment(dashes: nat)

  datatype Reader = Reader(mode: Mode, open: seq<string>) | Malformed

  predicate NameChar(c: char) {
    c !in " <>/\"!=&\n"
  }

  predicate IsName(s: string) {
    s != "" && forall i | 0 <= i < |s| :: NameChar(s[i])
  }

  function Read(r: Reader, c: char): Reader {
    match r
    case Malformed => Malformed
    case Reader(mode, open) =>
      match mode
      case InText => if c == '<' then Reader(AfterLt, open) else r
      case AfterLt =>
        if c == '/' then Reader(InClose(""), open)
        else if c == '!' then Reader(InBang(0), open)
        else if NameChar(c) then Reader(InName([c]), open)
        else Malformed
      case InName(n) =>
        if c == ' ' then Reader(InTag(n), open)
        else if c == '>' then Reader(InText, open + [n])
        else if c == '/' then Reader(AfterSlash(n), open)
        else if NameChar(c) then Reader(InName(n + [c]), open)
        else Malformed
      case InTag(n) =>
        if c == '"' then Reader(InValue(n), open)
        else if c == '>' then Reader(InText, open + [n])
        else if c == '/' then Reader(AfterSlash(n), open)
        else if c == '<' then Malformed
        else r
      case InValue(n) =>
        if c == '"' then Reader(InTag(n), open) else if c == '<' then Malformed else r
      case AfterSlash(n) => if c == '>' then Reader(InText, open) else Malformed
      case InClose(n) =>
        if c == '>' then
          if open != [] && open[|open| - 1] == n then Reader(InText, open[..|open| - 1]) else Malformed
        else if NameChar(c) then Reader(InClose(n + [c]), open)
        else Malformed
      case InBang(seen) =>
        if c != '-' then Malformed
        else if seen == 0 then Reader(InBang(1), open)
        else Reader(InComment(0), open)
      case InComment(dashes) =>
        if c == '-' then Reader(InComment(dashes + 1), open)
        else if c == '>' && dashes >= 2 then Reader(InText, open)
        else Reader(InComment(0), open)
  }

  function ReadAll(r: Reader, s: string): Reader
    decreases |s|
  {
    if s == "" then r else ReadAll(Read(r, s[0]), s[1..])
  }

  lemma {:induction false} ReadConcat(r: Reader, a: string, b: string)
    ensures ReadAll(r, a + b) == ReadAll(ReadAll(r, a), b)
    decreases |a|
  {
    if a == "" {
      assert a + b == b;
    } else {
      assert (a + b)[1..] == a[1..] + b;
      ReadConcat(Read(r, a[0]), a[1..], b);
    }
  }

  /** A character that leaves a reader where it is may be repeated. */
  lemma {:induction false} ReadKeeps(r: Reader, s: string)
    requires forall i | 0 <= i < |s| :: Read(r, s[i]) == r
    ensures ReadAll(r, s) == r
    decreases |s|
  {
    if s != "" {
      assert Read(r, s[0]) == r;
      forall i | 0 <= i < |s[1..]| ensures Read(r, s[1..][i]) == r {
        assert s[1..][i] == s[i + 1];
      }
      ReadKeeps(r, s[1..]);
    }
  }

  lemma {:induction false} ReadNameRest(n: string, open: seq<string>, s: string)
    requires forall i | 0 <= i < |s| :: NameChar(s[i])
    ensures ReadAll(Reader(InName(n), open), s) == Reader(InName(n + s), open)
    ensures ReadAll(Reader(InClose(n), open), s) == Reader(InClose(n + s), open)
    decreases |s|
  {
    if s == "" {
      assert n + s == n;
    } else {
      ReadNameRest(n + [s[0]], open, s[1..]);
      assert n + [s[0]] + s[1..] == n + s;
    }
  }

  lemma ReadOne(r: Reader, c: char)
    ensures ReadAll(r, [c]) == Read(r, c)
  {
    assert [c][1..] == "";
  }

  lemma ReadStartTag(open: seq<string>, name: string)
    requires IsName(name)
    ensures ReadAll(Reader(InText, open), "<" + name) == Reader(InName(name), open)
  {
    var r := Reader(AfterLt, open);
    ReadConcat(Reader(InText, open), "<", name);
    ReadOne(Reader(InText, open), '<');
    assert ReadAll(r, name) == ReadAll(Reader(InName([name[0]]), open), name[1..]);
    ReadNameRest([name[0]], open, name[1..]);
    assert [name[0]] + name[1..] == name;
  }

  lemma ReadEndTag(open: seq<string>, name: string)
    requires IsName(name) && open != [] && open[|open| - 1] == name
    ensures ReadAll(Reader(InText, open), "</" + name + ">\n") == Reader(InText, open[..|open| - 1])
  {
    var r, close := Reader(InText, open), Reader(InClose(""), open);
    ReadConcat(r, "</" + name, ">\n");
    ReadConcat(r, "</", name);
    ReadConcat(r, "<", "/");
    assert "<" + "/" == "</";
    ReadOne(r, '<');
    ReadOne(Reader(AfterLt, open), '/');
    ReadNameRest("", open, name);
    assert "" + name == name;
    var after := Reader(InText, open[..|open| - 1]);
    assert ">\n"[1..] == "\n";
    assert ReadAll(Reader(InClose(name), open), ">\n") == ReadAll(after, "\n");
    ReadOne(after, '\n');
  }

  /** `s` holds no end of a comment. */
  predicate NoCommentEnd(s: string) {
    forall i: nat | i <= |s| :: !OccursAt(s, "-->", i)
  }

  function TrailingDashes(s: string): nat {
    if s != "" && s[|s| - 1] == '-' then 1 + TrailingDashes(s[..|s| - 1]) else 0
  }

  lemma DashesThenBracket(s: string, n: nat)
    requires 0 < n <= |s|
    ensures s[n - 1] == '>' && TrailingDashes(s[..n - 1]) >= 2 ==> n >= 3 && OccursAt(s, "-->", n - 3)
  {
    if s[n - 1] == '>' && TrailingDashes(s[..n - 1]) >= 2 {
      var t := s[..n - 1];
      assert t != "" && t[|t| - 1] == '-' && TrailingDashes(t[..|t| - 1]) >= 1;
      var u := t[..|t| - 1];
      assert u != "" && u[|u| - 1] == '-';
      assert s[n - 3] == '-' && s[n - 2] == '-';
    }
  }

  lemma {:induction false} ReadCommentText(open: seq<string>, s: string, n: nat)
    requires NoCommentEnd(s) && n <= |s|
    ensures ReadAll(Reader(InComment(0), open), s[..n]) == Reader(InComment(TrailingDashes(s[..n])), open)
    decreases n
  {
    if n > 0 {
      var c := s[n - 1];
      ReadCommentText(open, s, n - 1);
      assert s[..n] == s[..n - 1] + [c] && s[..n][..n - 1] == s[..n - 1];
      ReadConcat(Reader(InComment(0), open), s[..n - 1], [c]);
      ReadOne(Reader(InComment(TrailingDashes(s[..n - 1])), open), c);
      DashesThenBracket(s, n);
    }
  }

  lemma ReadComment(open: seq<string>, s: string)
    requires NoCommentEnd(s)
    ensures ReadAll(Reader(InText, open), "<!--" + s + "-->") == Reader(InText, open)
  {
    var r := Reader(InText, open);
    ReadConcat(r, "<!--" + s, "-->");
    ReadConcat(r, "<!--", s);
    ReadFour(r, "<!--");
    ReadCommentText(open, s, |s|);
    assert s[..|s|] == s;
    var d := TrailingDashes(s);
    ReadThree(Reader(InComment(d), open), "-->");
  }

  lemma ReadThree(r: Reader, s: string)
    requires |s| == 3
    ensures ReadAll(r, s) == Read(Read(Read(r, s[0]), s[1]), s[2])
  {
    ReadOne(Read(Read(r, s[0]), s[1]), s[2]);
    assert s[1..][1..] == [s[2]];
  }

  lemma ReadFour(r: Reader, s: string)
    requires |s| == 4
    ensures ReadAll(r, s) == Read(Read(Read(Read(r, s[0]), s[1]), s[2]), s[3])
  {
    ReadThree(Read(r, s[0]), s[1..]);
  }
}
