/** The XML writer and its scoped elements as objects. */
module XmlClasses {
  import opened Basics
  import opened XmlEncoding
  import opened XmlReading
  import opened XmlWriting

  /** A blank, the name, and in quotes a text that stands for the value. */
  predicate IsAttribute(s: string, name: string, value: string) {
    && |s| >= |name| + 4 && s[..|name| + 3] == " " + name + "=\"" && s[|s| - 1] == '"'
    && Decode(s[|name| + 3..|s| - 1]) == value
  }

  class XmlWriter {
    var tagIsOpen: bool
    var needsNewline: bool
    var tags: seq<string>
    var indent: string
    var os: string

    function State(): Writer
      reads this
    {
      Writer(tagIsOpen, needsNewline, tags, indent, os)
    }

    constructor ()
      ensures State() == FRESH && Balanced(State())
    {
      tagIsOpen, needsNewline, tags, indent, os := false, false, [], "", "";
      new;
    }

    method CloseTagIfOpen()
      modifies this
      ensures State() == EnsureTagClosed(old(State()))
      ensures os == old(os) + (if old(tagIsOpen) then ">\n" else "") && !tagIsOpen
    {
      if tagIsOpen {
        os := os + ">\n";
        tagIsOpen := false;
      }
    }

    method PutNewlineIfNecessary()
      modifies this
      ensures State() == NewlineIfNecessary(old(State()))
      ensures os == old(os) + (if old(needsNewline) then "\n" else "") && !needsNewline
    {
      if needsNewline {
        os := os + "\n";
        needsNewline := false;
      }
    }

    method StartElement(name: string)
      modifies this
      ensures State() == Started(old(State()), name)
      ensures os == old(os) + (if old(tagIsOpen) then ">\n" else "") + (if old(needsNewline) then "\n" else "")
                    + (old(indent) + "<" + name)
      ensures tags == old(tags) + [name] && indent == old(indent) + "  " && tagIsOpen && !needsNewline
      ensures old(Balanced(State())) && IsName(name) ==> Balanced(State()) && tags == old(tags) + [name]
    {
      hide Balanced, IsName;
      ghost var w := State();
      CloseTagIfOpen();
      PutNewlineIfNecessary();
      os := os + (indent + "<" + name);
      tags := tags + [name];
      indent := indent + "  ";
      tagIsOpen := true;
      if Balanced(w) && IsName(name) {
        StartedIsBalanced(w, name);
      }
    }

    method EndElement()
      requires tags != [] && |indent| >= 2
      modifies this
      ensures State() == Ended(old(State()))
      ensures tags == old(tags)[..|old(tags)| - 1] && indent == old(indent)[..|old(indent)| - 2]
      ensures !tagIsOpen && !needsNewline
      ensures os == old(os) + (if old(needsNewline) then "\n" else "")
                    + (if old(tagIsOpen) then "/>\n" else indent + "</" + old(tags)[|old(tags)| - 1] + ">\n")
      ensures old(Balanced(State())) ==> Balanced(State()) && tags == old(tags)[..|old(tags)| - 1]
    {
      hide Balanced, IsName;
      ghost var w := State();
      PutNewlineIfNecessary();
      indent := indent[..|indent| - 2];
      if tagIsOpen {
        os := os + "/>\n";
        tagIsOpen := false;
      } else {
        os := os + (indent + "</" + tags[|tags| - 1] + ">\n");
      }
      tags := tags[..|tags| - 1];
      if Balanced(w) {
        EndedIsBalanced(w);
      }
    }

    method WriteAttribute(name: string, attribute: string)
      modifies this
      ensures State() == Perform(old(State()), Attribute(name, attribute))
      ensures name == "" || attribute == "" ==> os == old(os)
      ensures name != "" && attribute != "" ==> old(os) <= os && IsAttribute(os[|old(os)|..], name, attribute)
    {
      hide Encode, Decode;
      if name != "" && attribute != "" {
        ghost var before, opening := os, " " + name + "=\"";
        os := os + (" " + name + "=\"");
        WriteEncodedText(attribute);
        os := os + "\"";
        RegroupFour(before, opening, Encode(attribute), "\"");
        DecodeEncode(attribute);
        assert os[|before|..] == opening + Encode(attribute) + "\"";
      }
    }

    method WriteBoolAttribute(name: string, attribute: bool)
      modifies this
      ensures State() == Perform(old(State()), BoolAttribute(name, attribute))
      ensures os == old(os) + (" " + name + (if attribute then "=\"true\"" else "=\"false\""))
    {
      var written := if attribute then "true" else "false";
      os := os + (" " + name + "=\"" + written + "\"");
    }

    method WriteText(text: string, indented: bool)
      modifies this
      ensures State() == Perform(old(State()), Text(text, indented))
      ensures text == "" ==> State() == old(State())
      ensures text != "" ==>
                && tags == old(tags) && indent == old(indent) && !tagIsOpen && needsNewline
                && os == old(os) + (if old(tagIsOpen) then ">\n" else "")
                         + (if old(tagIsOpen) && indented then old(indent) else "") + Encode(text)
    {
      hide Encode;
      if text != "" {
        var tagWasOpen := tagIsOpen;
        CloseTagIfOpen();
        if tagWasOpen && indented {
          os := os + indent;
        }
        WriteEncodedText(text);
        needsNewline := true;
      }
    }

    method WriteComment(text: string)
      modifies this
      ensures State() == Perform(old(State()), Comment(text))
      ensures tags == old(tags) && indent == old(indent) && !tagIsOpen && needsNewline
      ensures os == old(os) + (if old(tagIsOpen) then ">\n" else "") + (old(indent) + ("<!--" + text + "-->"))
    {
      CloseTagIfOpen();
      os := os + (indent + ("<!--" + text + "-->"));
      needsNewline := true;
    }

    method WriteBlankLine()
      modifies this
      ensures State() == Perform(old(State()), BlankLine)
      ensures tags == old(tags) && indent == old(indent) && !tagIsOpen && needsNewline == old(needsNewline)
      ensures os == old(os) + (if old(tagIsOpen) then ">\n" else "") + "\n"
    {
      CloseTagIfOpen();
      os := os + "\n";
    }

    /** Cuts the text at each character to encode. */
    method WriteEncodedText(text: string)
      modifies this`os
      ensures os == old(os) + Encode(text)
    {
      var mtext := text;
      var pos := FindSpecial(mtext);
      while pos.Some?
        invariant pos == FindSpecial(mtext)
        invariant old(os) + Encode(text) == os + Encode(mtext)
        decreases |mtext|
      {
        EncodeCut(mtext, pos.value);
        RegroupFour(os, mtext[..pos.value], Entity(mtext[pos.value]), Encode(mtext[pos.value + 1..]));
        os := os + mtext[..pos.value];
        match mtext[pos.value] {
          case '<' => os := os + "&lt;";
          case '&' => os := os + "&amp;";
          case '"' => os := os + "&quot;";
          case _ => assert false;
        }
        mtext := mtext[pos.value + 1..];
        pos := FindSpecial(mtext);
      }
      EncodePlain(mtext);
      os := os + mtext;
    }

    /** The destructor. */
    method Destroy()
      requires Balanced(State())
      modifies this
      ensures State() == Destroyed(old(State())) && tags == []
      ensures ReadAll(START, os) == START
    {
      DestroyedIsComplete(State());
      ghost var w := State();
      while tags != []
        invariant Balanced(State()) && Destroyed(State()) == Destroyed(w)
        decreases |tags|
      {
        EndElement();
      }
    }
  }

  /** Ends its element when it is destroyed, unless a copy has taken that over. */
  class ScopedElement {
    var writer: XmlWriter?

    constructor (w: XmlWriter)
      ensures writer == w
    {
      writer := w;
    }

    constructor Copy(other: ScopedElement)
      modifies other
      ensures writer == old(other.writer) && other.writer == null
    {
      writer := other.writer;
      new;
      other.writer := null;
    }

    method Destroy()
      requires writer != null ==> writer.tags != [] && |writer.indent| >= 2
      modifies writer
      ensures writer != null ==> writer.State() == Ended(old(writer.State()))
    {
      if writer != null {
        writer.EndElement();
      }
    }
  }

  method Scoped(w: XmlWriter, name: string) returns (scoped: ScopedElement)
    modifies w
    ensures fresh(scoped) && scoped.writer == w
    ensures w.State() == Started(old(w.State()), name)
  {
    scoped := new ScopedElement(w);
    w.StartElement(name);
  }
}
