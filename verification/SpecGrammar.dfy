/** Specifications as they are written on a command line: plain names, quoted names and tags, excluded by a
    tilde or the prefix `exclude:`, and which test cases they select. */
module SpecGrammar {
  import opened TestSpecs

  datatype Kind = Plain | InQuotes | InBrackets

  datatype Mark = Included | ByTilde | ByPrefix

  /** One pattern as it is written, with blanks before it. */
  datatype Item = Item(blanks: nat, mark: Mark, kind: Kind, text: string) {
    function Tilde(): string {
      if mark == ByTilde then "~" else ""
    }

    function Prefix(): string {
      if mark == ByPrefix then "exclude:" else ""
    }

    /** The prefix goes inside the quotes and in front of the bracket. */
    function Written(): string {
      match kind
      case Plain => Prefix() + text
      case InQuotes => "\"" + (Prefix() + text) + "\""
      case InBrackets => Prefix() + ("[" + text + "]")
    }

    function Print(): string {
      Blanks(blanks) + (Tilde() + Written())
    }

    /** What can be written so: a plain name holds neither commas nor opening brackets and does not begin like
        anything else, and the others hold their closing character nowhere but as their first. */
    predicate Writable() {
      && text != ""
      && (mark != ByPrefix || kind == InBrackets ==> !StartsWith(text, "exclude:"))
      && match kind
         case Plain =>
           && (forall i | 0 <= i < |text| :: text[i] != ',' && text[i] != '[')
           && (mark != ByPrefix ==> text[0] != ' ' && text[0] != '~' && text[0] != '"')
         case InQuotes => forall i | (if mark == ByPrefix then 0 else 1) <= i < |text| :: text[i] != '"'
         case InBrackets => forall i | 1 <= i < |text| :: text[i] != ']'
    }

    function Pattern(): Pattern {
      var p := if kind == InBrackets then MakeTag(text) else MakeName(text);
      if mark == Included then p else ExcludedPattern(p)
    }
  }

  function Blanks(n: nat): (s: string)
    ensures |s| == n && forall i | 0 <= i < n :: s[i] == ' '
  {
    seq(n, _ => ' ')
  }

  /** Only the end, a comma or a bracket ends a plain name. */
  ghost predicate WellWritten(items: seq<Item>) {
    && (forall i | 0 <= i < |items| :: items[i].Writable())
    && (forall i | 0 <= i < |items| - 1 && items[i].kind == Plain ::
          items[i + 1].kind == InBrackets && items[i + 1].mark == Included && items[i + 1].blanks == 0)
  }

  function PrintItems(items: seq<Item>): string {
    if items == [] then "" else items[0].Print() + PrintItems(items[1..])
  }

  function PrintAll(filters: seq<seq<Item>>): string {
    if filters == [] then ""
    else if |filters| == 1 then PrintItems(filters[0])
    else PrintItems(filters[0]) + "," + PrintAll(filters[1..])
  }

  function ItemPatterns(items: seq<Item>): (f: Filter)
    ensures |f| == |items| && forall i | 0 <= i < |f| :: f[i] == items[i].Pattern()
  {
    seq(|items|, i requires 0 <= i < |items| => items[i].Pattern())
  }

  /** Filters without patterns are dropped. */
  function AllPatterns(filters: seq<seq<Item>>): seq<Filter> {
    if filters == [] then []
    else (if filters[0] == [] then [] else [ItemPatterns(filters[0])]) + AllPatterns(filters[1..])
  }

  // ---------- reading an item ----------

  ghost predicate Ahead(s: State, text: string) {
    s.pos <= |s.arg| && s.arg[s.pos..] == text
  }

  lemma CharAhead(s: State, text: string, rest: string, i: nat)
    requires Ahead(s, text + rest) && i < |text|
    ensures s.pos + i < |s.arg| && s.arg[s.pos + i] == text[i]
  {
    assert s.arg[s.pos + i] == s.arg[s.pos..][i];
  }

  lemma PassAhead(s: State, text: string, rest: string)
    requires Ahead(s, text + rest)
    ensures s.pos + |text| <= |s.arg| && s.arg[s.pos..s.pos + |text|] == text
    ensures s.arg[s.pos + |text|..] == rest
  {
    assert s.arg[s.pos..][..|text|] == text && s.arg[s.pos..][|text|..] == rest;
  }

  lemma {:induction false} SkipBlanks(s: State, n: nat, rest: string)
    requires s.mode == None && Ahead(s, Blanks(n) + rest)
    ensures var r := s.(pos := s.pos + n); Ahead(r, rest) && Scan(s) == Scan(r)
    decreases n
  {
    hide Scan;
    if n == 0 {
      assert Blanks(0) + rest == rest;
    } else {
      CharAhead(s, Blanks(n), rest, 0);
      assert Blanks(n) + rest == " " + (Blanks(n - 1) + rest);
      PassAhead(s, " ", Blanks(n - 1) + rest);
      ScanStep(s);
      SkipBlanks(s.(pos := s.pos + 1), n - 1, rest);
    }
  }

  lemma SkipTilde(s: State, rest: string)
    requires s.mode == None && Ahead(s, "~" + rest)
    ensures var r := s.(pos := s.pos + 1, exclusion := true); Ahead(r, rest) && Scan(s) == Scan(r)
  {
    hide Scan;
    CharAhead(s, "~", rest, 0);
    PassAhead(s, "~", rest);
    ScanStep(s);
  }

  predicate Begins(c: char) {
    c != ' ' && c != '~' && c != '"' && c != '[' && c != ','
  }

  lemma {:induction false} SkipName(s: State, n: nat)
    requires s.mode == Name && s.Ordered() && s.pos + n <= |s.arg|
    requires forall i | s.pos <= i < s.pos + n :: s.arg[i] != ',' && s.arg[i] != '['
    ensures Scan(s) == Scan(s.(pos := s.pos + n))
    decreases n
  {
    hide Scan;
    if n > 0 {
      ScanStep(s);
      SkipName(s.(pos := s.pos + 1), n - 1);
    }
  }

  /** A name is read up to its end. */
  lemma ScanName(s: State, name: string, rest: string)
    requires s.mode == None && Ahead(s, name + rest) && name != "" && Begins(name[0])
    requires forall i | 0 <= i < |name| :: name[i] != ',' && name[i] != '['
    ensures var r := s.(mode := Name, start := s.pos, pos := s.pos + |name|);
            && Ahead(r, rest) && SubString(r) == name && Scan(s) == Scan(r)
  {
    hide Scan;
    PassAhead(s, name, rest);
    CharAhead(s, name, rest, 0);
    ScanStep(s);
    var t := s.(mode := Name, start := s.pos, pos := s.pos + 1);
    forall i | t.pos <= i < s.pos + |name| ensures s.arg[i] != ',' && s.arg[i] != '[' {
      CharAhead(s, name, rest, i - s.pos);
    }
    SkipName(t, |name| - 1);
  }

  /** Up to the mark: what is left to read is the item without blanks and tilde. */
  lemma ScanMark(s: State, item: Item, rest: string)
    requires Between(s) && Ahead(s, item.Print() + rest)
    ensures var r := s.(pos := s.pos + item.blanks + |item.Tilde()|, exclusion := item.mark == ByTilde);
            && r.mode == None && Ahead(r, item.Written() + rest) && Scan(s) == Scan(r)
  {
    hide Scan, Item.Written;
    var rest' := item.Tilde() + item.Written() + rest;
    assert item.Print() + rest == Blanks(item.blanks) + rest';
    SkipBlanks(s, item.blanks, rest');
    if item.mark == ByTilde {
      assert rest' == "~" + (item.Written() + rest);
      SkipTilde(s.(pos := s.pos + item.blanks), item.Written() + rest);
    } else {
      assert rest' == item.Written() + rest;
    }
  }

  /** The pattern of a token without and with the prefix. */
  lemma TokenIs(text: string, tag: bool, excluded: bool)
    requires text != ""
    ensures var p := if tag then MakeTag(text) else MakeName(text);
            && (!StartsWith(text, "exclude:") ==>
                  TokenPatterns(text, tag, excluded) == [if excluded then ExcludedPattern(p) else p])
            && TokenPatterns("exclude:" + text, tag, excluded) == [ExcludedPattern(p)]
            && "exclude:" + text != EXCLUDE
  {
    assert ("exclude:" + text)[..8] == "exclude:" && ("exclude:" + text)[8..] == text;
  }

  /** The state after a plain name, whose pattern is added by what ends it. */
  lemma ScanPlain(s: State, item: Item, rest: string) returns (r: State)
    requires Between(s) && item.kind == Plain && item.Writable() && Ahead(s, item.Print() + rest)
    ensures r.mode == Name && r.Ordered() && Ahead(r, rest) && Scan(s) == Scan(r)
    ensures r.arg == s.arg && r.start <= r.pos <= |r.arg| && SubString(r) != EXCLUDE
    ensures AddPattern(r, false)
            == s.(currentFilter := s.currentFilter + [item.Pattern()], start := r.start, pos := r.pos)
  {
    hide Scan, TokenPatterns, MakeName, MakeTag, Begins;
    hide Item.Written, Item.Print, Item.Writable, Item.Tilde, Item.Pattern;
    ScanMark(s, item, rest);
    var m := s.(pos := s.pos + item.blanks + |item.Tilde()|, exclusion := item.mark == ByTilde);
    var name := item.Written();
    NameBegins(item);
    ScanName(m, name, rest);
    r := m.(mode := Name, start := m.pos, pos := m.pos + |name|);
    NameIs(item);
  }

  lemma NameIs(item: Item)
    requires item.kind == Plain && item.Writable()
    ensures TokenPatterns(item.Written(), false, item.mark == ByTilde) == [item.Pattern()]
    ensures item.Written() != EXCLUDE
  {
    hide TokenPatterns, MakeName, MakeTag;
    NameBegins(item);
    TokenIs(item.text, false, item.mark == ByTilde);
  }

  lemma NameBegins(item: Item)
    requires item.kind == Plain && item.Writable()
    ensures var name := item.Written();
            && name == (if item.mark == ByPrefix then "exclude:" + item.text else item.text)
            && name != "" && Begins(name[0])
            && forall i | 0 <= i < |name| :: name[i] != ',' && name[i] != '['
  {
    assert "" + item.text == item.text;
  }

  /** The state after an item with a closing character. */
  lemma ScanClosed(s: State, item: Item, rest: string) returns (r: State)
    requires Between(s) && item.kind != Plain && item.Writable() && Ahead(s, item.Print() + rest)
    ensures Between(r) && Ahead(r, rest) && Scan(s) == Scan(r)
    ensures r.arg == s.arg && r.filters == s.filters && r.currentFilter == s.currentFilter + [item.Pattern()]
  {
    hide Scan, Ahead, Item.Print, Item.Writable;
    if item.kind == InBrackets && item.mark == ByPrefix {
      r := ScanPrefixed(s, item, rest);
    } else {
      r := ScanTermOf(s, item, rest);
    }
  }

  lemma ScanTermOf(s: State, item: Item, rest: string) returns (r: State)
    requires Between(s) && item.kind != Plain && item.Writable() && (item.kind == InBrackets ==> item.mark != ByPrefix)
    requires Ahead(s, item.Print() + rest)
    ensures Between(r) && Ahead(r, rest) && Scan(s) == Scan(r)
    ensures r.arg == s.arg && r.filters == s.filters && r.currentFilter == s.currentFilter + [item.Pattern()]
  {
    hide Scan, Item.Written, Item.Tilde, Term.Print, Term.Patterns, Term.Printable, Item.Pattern, Item.Writable;
    var t := TermOf(item);
    TermIs(item);
    assert item.Print() + rest == Blanks(item.blanks) + (t.Print() + rest);
    SkipBlanks(s, item.blanks, t.Print() + rest);
    var m := s.(pos := s.pos + item.blanks);
    ScanTerm(m, t, rest);
    r := AfterTerm(m, t);
  }

  function TermOf(item: Item): Term {
    Term(item.mark == ByTilde, item.kind == InBrackets, item.Prefix() + item.text)
  }

  lemma TermIs(item: Item)
    requires item.kind != Plain && item.Writable() && (item.kind == InBrackets ==> item.mark != ByPrefix)
    ensures var t := TermOf(item);
            t.Printable() && t.Print() == item.Tilde() + item.Written() && t.Patterns() == [item.Pattern()]
  {
    hide *;
    TermPrints(item);
    TermPrintable(item);
    TermPatterns(item);
  }

  lemma TermPrintable(item: Item)
    requires item.kind != Plain && item.Writable() && (item.kind == InBrackets ==> item.mark != ByPrefix)
    ensures TermOf(item).Printable()
  {
    hide StartsWith;
    var t := TermOf(item);
    forall i | 0 <= i < |t.text[1..]| ensures t.text[1..][i] != t.Close() {
      assert t.text[1..][i] == t.text[i + 1];
    }
  }

  lemma TermPatterns(item: Item)
    requires item.kind != Plain && item.Writable() && (item.kind == InBrackets ==> item.mark != ByPrefix)
    ensures TermOf(item).Patterns() == [item.Pattern()]
  {
    hide TokenPatterns, MakeName, MakeTag, StartsWith;
    TokenIs(item.text, item.kind == InBrackets, item.mark == ByTilde);
    assert "" + item.text == item.text;
  }

  lemma TermPrints(item: Item)
    requires item.kind != Plain && (item.kind == InBrackets ==> item.mark != ByPrefix)
    ensures TermOf(item).Print() == item.Tilde() + item.Written()
  {
    var quote := "\"";
    Basics.Regroup(item.Tilde(), quote, item.Prefix() + item.text);
  }

  /** The prefix in front of a bracket is no name: it excludes the tag. */
  lemma ScanPrefix(m: State, tag: string) returns (b: State)
    requires Between(m) && Ahead(m, "exclude:" + ("[" + tag))
    ensures b == m.(exclusion := true, mode := Tag, start := m.pos + 9, pos := m.pos + 10)
    ensures Ahead(b.(pos := b.start), tag) && Scan(m) == Scan(b)
  {
    hide Scan, AddPattern;
    ScanName(m, "exclude:", "[" + tag);
    var n := m.(mode := Name, start := m.pos, pos := m.pos + 8);
    CharAhead(n, "[", tag, 0);
    PassAhead(n, "[", tag);
    ScanStep(n);
    b := n.(exclusion := true, mode := Tag, start := n.pos + 1, pos := n.pos + 2);
  }

  /** The text of a tag and its closing bracket. */
  lemma ScanTag(b: State, text: string, rest: string) returns (r: State)
    requires b.mode == Tag && b.exclusion && b.pos == b.start + 1 && Ahead(b.(pos := b.start), text + ("]" + rest))
    requires text != "" && !StartsWith(text, "exclude:") && forall i | 1 <= i < |text| :: text[i] != ']'
    ensures Between(r) && Ahead(r, rest) && Scan(b) == Scan(r)
    ensures r.arg == b.arg && r.filters == b.filters
    ensures r.currentFilter == b.currentFilter + [ExcludedPattern(MakeTag(text))]
  {
    hide Scan, TokenPatterns, MakeTag;
    var from, t := b.start, Term(true, true, text);
    PassAhead(b.(pos := from), text, "]" + rest);
    var c := b.(pos := from + |text|);
    CharAhead(c, "]", rest, 0);
    PassAhead(c, "]", rest);
    forall i | 0 <= i < |text[1..]| ensures text[1..][i] != ']' {
      assert text[1..][i] == text[i + 1];
    }
    ScanText(b, t, from);
    TokenIs(text, true, true);
    r := b.(pos := from + |text| + 1, mode := None, exclusion := false,
            currentFilter := b.currentFilter + t.Patterns());
  }

  lemma ScanPrefixed(s: State, item: Item, rest: string) returns (r: State)
    requires Between(s) && item.kind == InBrackets && item.mark == ByPrefix && item.Writable()
    requires Ahead(s, item.Print() + rest)
    ensures Between(r) && Ahead(r, rest) && Scan(s) == Scan(r)
    ensures r.arg == s.arg && r.filters == s.filters && r.currentFilter == s.currentFilter + [item.Pattern()]
  {
    hide Scan, MakeTag, Ahead;
    ScanMark(s, item, rest);
    var m := s.(pos := s.pos + item.blanks);
    var tag := item.text + ("]" + rest);
    assert item.Written() + rest == "exclude:" + ("[" + tag);
    var b := ScanPrefix(m, tag);
    r := ScanTag(b, item.text, rest);
  }

  // ---------- reading a specification ----------

  /** What a state comes to when the name it may be in ends. */
  function Finished(s: State): State {
    if s.mode == Name && s.start <= s.pos <= |s.arg| then AddPattern(s, false) else s
  }

  /** Between two items, or in a plain name that has been read to its end. */
  ghost predicate AtEnd(s: State, rest: string) {
    && Ahead(s, rest) && s.Ordered()
    && ((s.mode == None && !s.exclusion) || (s.mode == Name && SubString(s) != EXCLUDE))
  }

  lemma NameThenTag(r: State, rest: string)
    requires r.mode == Name && AtEnd(r, rest) && rest != "" && rest[0] == '['
    ensures var b := AddPattern(r, false); Between(b) && Ahead(b, rest) && Scan(r) == Scan(b)
  {
    hide Scan, TokenPatterns;
    CharAhead(r, rest, "", 0) by {
      assert rest + "" == rest;
    }
    var b := AddPattern(r, false);
    ScanStep(r);
    ScanStep(b);
    assert Visit(r) == Visit(b);
  }

  lemma BracketFirst(items: seq<Item>, rest: string)
    requires items != [] && items[0].kind == InBrackets && items[0].mark == Included && items[0].blanks == 0
    ensures var s := PrintItems(items) + rest; s != "" && s[0] == '['
  {
  }

  lemma FirstItem(items: seq<Item>, rest: string)
    requires items != []
    ensures PrintItems(items) + rest == items[0].Print() + (PrintItems(items[1..]) + rest)
    ensures ItemPatterns(items) == [items[0].Pattern()] + ItemPatterns(items[1..])
  {
    FirstPattern(items);
    hide Item.Print, Item.Pattern, ItemPatterns;
    Basics.Regroup(items[0].Print(), PrintItems(items[1..]), rest);
  }

  lemma FirstPattern(items: seq<Item>)
    requires items != []
    ensures ItemPatterns(items) == [items[0].Pattern()] + ItemPatterns(items[1..])
  {
    hide *;
    var all, more := ItemPatterns(items), ItemPatterns(items[1..]);
    forall i | 0 <= i < |all| ensures all[i] == ([items[0].Pattern()] + more)[i] {
      if i > 0 {
        assert more[i - 1] == items[1..][i - 1].Pattern() && items[1..][i - 1] == items[i];
      }
    }
  }

  lemma NoItems(rest: string)
    ensures PrintItems([]) + rest == rest && ItemPatterns([]) == []
  {
  }

  /** A plain name in front of a tag: the bracket ends it. */
  lemma NameBeforeTag(s: State, items: seq<Item>, rest: string) returns (next: State)
    requires Between(s) && WellWritten(items) && Ahead(s, PrintItems(items) + rest)
    requires |items| > 1 && items[0].kind == Plain
    ensures Between(next) && Ahead(next, PrintItems(items[1..]) + rest) && Scan(s) == Scan(next)
    ensures next.arg == s.arg && next.filters == s.filters
    ensures next.currentFilter == s.currentFilter + [items[0].Pattern()]
  {
    hide Scan, Ahead, Item.Writable, Item.Print, Item.Pattern, SubString, PrintItems, WellWritten, ItemPatterns;
    var more := PrintItems(items[1..]) + rest;
    FirstItem(items, rest);
    MoreWritten(items);
    var name := ScanPlain(s, items[0], more);
    BracketFirst(items[1..], rest);
    NameThenTag(name, more);
    next := AddPattern(name, false);
  }

  lemma {:induction false} ScanItems(s: State, items: seq<Item>, rest: string) returns (r: State)
    requires Between(s) && WellWritten(items) && Ahead(s, PrintItems(items) + rest)
    ensures AtEnd(r, rest) && Scan(s) == Scan(r) && r.arg == s.arg
    ensures Finished(r).currentFilter == s.currentFilter + ItemPatterns(items) && Finished(r).filters == s.filters
    decreases |items|
  {
    hide *;
    if items == [] {
      NoItems(rest);
      r := s;
      NoneRead(s, rest);
    } else {
      FirstItem(items, rest);
      MoreWritten(items);
      if items[0].kind == Plain && |items| == 1 {
        assert items == [items[0]] && items[1..] == [];
        NoItems(rest);
        r := LastPlain(s, items[0], rest);
      } else {
        var next;
        if items[0].kind == Plain {
          next := NameBeforeTag(s, items, rest);
        } else {
          next := ScanClosed(s, items[0], PrintItems(items[1..]) + rest);
        }
        r := ScanItems(next, items[1..], rest);
        assert s.currentFilter + ItemPatterns(items)
            == s.currentFilter + [items[0].Pattern()] + ItemPatterns(items[1..]);
      }
    }
  }

  lemma NoneRead(s: State, rest: string)
    requires Between(s) && Ahead(s, rest)
    ensures AtEnd(s, rest) && Finished(s).currentFilter == s.currentFilter + [] && Finished(s).filters == s.filters
  {
  }

  lemma LastPlain(s: State, item: Item, rest: string) returns (r: State)
    requires Between(s) && item.kind == Plain && item.Writable() && Ahead(s, PrintItems([item]) + rest)
    ensures AtEnd(r, rest) && Scan(s) == Scan(r) && r.arg == s.arg
    ensures Finished(r).currentFilter == s.currentFilter + [item.Pattern()] && Finished(r).filters == s.filters
  {
    hide Scan, Ahead, Item.Writable, Item.Print, Item.Pattern, SubString;
    assert PrintItems([item]) == item.Print() by {
      assert [item][1..] == [] && item.Print() + "" == item.Print();
    }
    r := ScanPlain(s, item, rest);
  }

  lemma MoreWritten(items: seq<Item>)
    requires WellWritten(items) && items != []
    ensures WellWritten(items[1..]) && items[0].Writable()
    ensures |items| > 1 && items[0].kind == Plain ==>
              items[1].kind == InBrackets && items[1].mark == Included && items[1].blanks == 0
  {
    hide Item.Writable;
    var more := items[1..];
    forall i | 0 <= i < |more| ensures more[i].Writable() {
      assert more[i] == items[i + 1];
    }
    forall i | 0 <= i < |more| - 1 && more[i].kind == Plain
      ensures more[i + 1].kind == InBrackets && more[i + 1].mark == Included && more[i + 1].blanks == 0
    {
      assert more[i] == items[i + 1] && more[i + 1] == items[i + 2];
    }
  }

  /** A comma ends the filter, and the name before it if there is one. */
  lemma CommaEnds(r: State, rest: string) returns (t: State)
    requires AtEnd(r, "," + rest)
    ensures Between(t) && Ahead(t, rest) && Scan(r) == Scan(t) && t.arg == r.arg
    ensures t.currentFilter == [] && t.filters == AddFilter(Finished(r)).filters
  {
    hide Scan, TokenPatterns;
    CharAhead(r, ",", rest, 0);
    PassAhead(r, ",", rest);
    if r.mode == Name {
      ScanStep(r);
      t := AddFilter(Finished(r)).(pos := r.pos + 1);
    } else {
      ScanComma(r, rest);
      t := AddFilter(r).(start := r.pos, pos := r.pos + 1);
    }
  }

  /** The filters `acc` have been read, the last of which may still grow. */
  ghost predicate HasRead(s: State, acc: seq<seq<Item>>) {
    if acc == [] then s.filters == [] && s.currentFilter == []
    else s.filters == AllPatterns(acc[..|acc| - 1]) && s.currentFilter == ItemPatterns(acc[|acc| - 1])
  }

  /** Filters read after others: the first of them goes on with the last of those before. */
  function Joined(acc: seq<seq<Item>>, filters: seq<seq<Item>>): (all: seq<seq<Item>>)
    ensures filters != [] ==> all != []
  {
    if filters == [] then acc
    else if acc == [] then filters
    else acc[..|acc| - 1] + [acc[|acc| - 1] + filters[0]] + filters[1..]
  }

  lemma {:induction false} AllPatternsConcat(a: seq<seq<Item>>, b: seq<seq<Item>>)
    ensures AllPatterns(a + b) == AllPatterns(a) + AllPatterns(b)
    decreases |a|
  {
    hide ItemPatterns;
    if a == [] {
      assert a + b == b;
    } else {
      assert (a + b)[1..] == a[1..] + b;
      AllPatternsConcat(a[1..], b);
      var here := if a[0] == [] then [] else [ItemPatterns(a[0])];
      Basics.Regroup(here, AllPatterns(a[1..]), AllPatterns(b));
    }
  }

  lemma OnePattern(f: seq<Item>)
    ensures AllPatterns([f]) == if f == [] then [] else [ItemPatterns(f)]
  {
    hide ItemPatterns;
    assert [f][1..] == [];
  }

  lemma PatternsConcat(a: seq<Item>, b: seq<Item>)
    ensures ItemPatterns(a + b) == ItemPatterns(a) + ItemPatterns(b)
  {
    hide Item.Pattern;
  }

  /** The end of the text, or of the filter, closes what has been read. */
  lemma ReadFilters(s: State, acc: seq<seq<Item>>)
    requires HasRead(s, acc)
    ensures AddFilter(s).filters == AllPatterns(acc)
  {
    if acc != [] {
      var n := |acc| - 1;
      hide ItemPatterns;
      assert acc == acc[..n] + [acc[n]];
      AllPatternsConcat(acc[..n], [acc[n]]);
      OnePattern(acc[n]);
      assert ItemPatterns(acc[n]) == [] <==> acc[n] == [] by {
        assert |ItemPatterns(acc[n])| == |acc[n]|;
      }
    }
  }

  lemma ReadItems(s: State, acc: seq<seq<Item>>, items: seq<Item>, r: State)
    requires HasRead(s, acc)
    requires r.currentFilter == s.currentFilter + ItemPatterns(items) && r.filters == s.filters
    ensures HasRead(r, Joined(acc, [items]))
  {
    hide ItemPatterns, AllPatterns;
    var all := Joined(acc, [items]);
    if acc == [] {
      assert [] + ItemPatterns(items) == ItemPatterns(items);
      assert all[..0] == [] && AllPatterns([]) == [] by { NothingRead(); }
    } else {
      var n := |acc| - 1;
      PatternsConcat(acc[n], items);
      assert all == acc[..n] + [acc[n] + items];
      assert all[..n] == acc[..n];
    }
  }

  lemma NothingRead()
    ensures AllPatterns([]) == []
  {
  }

  lemma ReadComma(r: State, acc: seq<seq<Item>>, t: State)
    requires acc != [] && HasRead(r, acc) && t.filters == AddFilter(r).filters && t.currentFilter == []
    ensures HasRead(t, acc + [[]])
  {
    ReadFilters(r, acc);
    assert (acc + [[]])[..|acc|] == acc;
  }

  lemma JoinedNext(acc: seq<seq<Item>>, filters: seq<seq<Item>>)
    requires |filters| > 1
    ensures Joined(acc, [filters[0]]) != []
    ensures Joined(acc, filters) == Joined(Joined(acc, [filters[0]]) + [[]], filters[1..])
  {
    var one := Joined(acc, [filters[0]]);
    var two := one + [[]];
    assert two[|two| - 1] + filters[1] == filters[1] && two[..|two| - 1] == one;
    assert filters[1..][1..] == filters[2..] && filters[1..] == [filters[1]] + filters[2..];
    if acc != [] {
      assert one == acc[..|acc| - 1] + [acc[|acc| - 1] + filters[0]];
    }
  }

  lemma {:induction false} ScanAll(s: State, acc: seq<seq<Item>>, filters: seq<seq<Item>>) returns (r: State)
    requires Between(s) && HasRead(s, acc) && (forall f | f in filters :: WellWritten(f))
    requires Ahead(s, PrintAll(filters))
    ensures AtEnd(r, "") && Scan(s) == Scan(r) && r.arg == s.arg && HasRead(Finished(r), Joined(acc, filters))
    decreases |filters|
  {
    hide Scan, WellWritten, PrintItems, ItemPatterns, AddFilter, Ahead, AtEnd, HasRead, AddPattern, Joined;
    if filters == [] {
      assert Joined(acc, []) == acc by { JoinedNone(acc); }
      r := s;
      AtEndBetween(s);
    } else {
      assert filters[0] in filters;
      var rest := if |filters| == 1 then "" else "," + PrintAll(filters[1..]);
      assert PrintAll(filters) == PrintItems(filters[0]) + rest;
      var m := ScanItems(s, filters[0], rest);
      ReadItems(s, acc, filters[0], Finished(m));
      if |filters| == 1 {
        assert filters == [filters[0]];
        r := m;
      } else {
        var t := CommaEnds(m, PrintAll(filters[1..]));
        JoinedNext(acc, filters);
        ReadComma(Finished(m), Joined(acc, [filters[0]]), t);
        r := ScanAll(t, Joined(acc, [filters[0]]) + [[]], filters[1..]);
      }
    }
  }

  lemma JoinedNone(acc: seq<seq<Item>>)
    ensures Joined(acc, []) == acc
  {
  }

  lemma AtEndBetween(s: State)
    requires Between(s) && Ahead(s, "")
    ensures AtEnd(s, "") && Finished(s) == s
  {
  }

  /** Parsing what is written adds its filters to those parsed before. */
  lemma ParseOn(s: State, acc: seq<seq<Item>>, filters: seq<seq<Item>>)
    requires HasRead(s, acc) && forall f | f in filters :: WellWritten(f)
    ensures HasRead(Parse(s, PrintAll(filters)), Joined(acc, filters))
  {
    hide Scan, WellWritten, PrintAll, AllPatterns, ItemPatterns, Joined, AddPattern;
    var t := Start(s, PrintAll(filters));
    assert t.arg[0..] == t.arg;
    var r := ScanAll(t, acc, filters);
    assert r.pos == |r.arg|;
    ScanEnd(r);
  }

  /** Parsing what is written gives back the patterns, filter by filter. */
  lemma ParseWritten(filters: seq<seq<Item>>)
    requires forall f | f in filters :: WellWritten(f)
    ensures ParseSpec(PrintAll(filters)) == AllPatterns(filters)
  {
    hide Parse, WellWritten, PrintAll, AllPatterns;
    ParseOn(INITIAL, [], filters);
    ReadFilters(Parse(INITIAL, PrintAll(filters)), Joined([], filters));
  }

  /** Arguments parsed one after another: without a comma between them the last filter of one goes on in the
      next. */
  function JoinedAll(acc: seq<seq<Item>>, args: seq<seq<seq<Item>>>): seq<seq<Item>>
    decreases |args|
  {
    if args == [] then acc else JoinedAll(Joined(acc, args[0]), args[1..])
  }

  function PrintEach(args: seq<seq<seq<Item>>>): seq<string> {
    if args == [] then [] else [PrintAll(args[0])] + PrintEach(args[1..])
  }

  ghost predicate EachWritten(args: seq<seq<seq<Item>>>) {
    forall i, j | 0 <= i < |args| && 0 <= j < |args[i]| :: WellWritten(args[i][j])
  }

  lemma {:induction false} ParseEachOn(s: State, acc: seq<seq<Item>>, args: seq<seq<seq<Item>>>)
    requires HasRead(s, acc) && EachWritten(args)
    ensures AddFilter(ParseEach(s, PrintEach(args))).filters == AllPatterns(JoinedAll(acc, args))
    decreases |args|
  {
    hide Parse, WellWritten, PrintAll, AllPatterns, Joined, HasRead, AddFilter;
    if args == [] {
      ReadFilters(s, acc);
    } else {
      forall f | f in args[0] ensures WellWritten(f) {
        var j :| 0 <= j < |args[0]| && args[0][j] == f;
      }
      ParseOn(s, acc, args[0]);
      var more := args[1..];
      assert EachWritten(more) by {
        forall i, j | 0 <= i < |more| && 0 <= j < |more[i]| ensures WellWritten(more[i][j]) {
          assert more[i] == args[i + 1];
        }
      }
      assert PrintEach(args)[1..] == PrintEach(more);
      ParseEachOn(Parse(s, PrintAll(args[0])), Joined(acc, args[0]), more);
    }
  }

  /** The specification of several arguments. */
  lemma ParseArguments(args: seq<seq<seq<Item>>>)
    requires EachWritten(args)
    ensures AddFilter(ParseEach(INITIAL, PrintEach(args))).filters == AllPatterns(JoinedAll([], args))
  {
    hide ParseEach, PrintEach, JoinedAll, AllPatterns, AddFilter, EachWritten;
    ParseEachOn(INITIAL, [], args);
  }

  /** A plain name alone is one filter with one name pattern. */
  lemma ParseName(name: string)
    requires name != "" && !StartsWith(name, "exclude:") && name[0] != ' ' && name[0] != '~' && name[0] != '"'
    requires forall i | 0 <= i < |name| :: name[i] != ',' && name[i] != '['
    ensures ParseSpec(name) == [[MakeName(name)]]
    ensures ParseSpec("~" + name) == [[ExcludedPattern(MakeName(name))]]
    ensures ParseSpec("exclude:" + name) == [[ExcludedPattern(MakeName(name))]]
  {
    hide ParseSpec, MakeName;
    var plain, tilde, prefix :=
      Item(0, Included, Plain, name), Item(0, ByTilde, Plain, name), Item(0, ByPrefix, Plain, name);
    assert "" + ("" + name) == name && "~" + ("" + name) == "~" + name;
    assert "" + ("exclude:" + name) == "exclude:" + name;
    assert plain.Writable() && tilde.Writable() && prefix.Writable();
    OneItem(plain, name);
    OneItem(tilde, "~" + name);
    OneItem(prefix, "exclude:" + name);
  }

  lemma OneItem(item: Item, written: string)
    requires item.Writable() && item.blanks == 0 && written == item.Tilde() + item.Written()
    ensures ParseSpec(written) == [[item.Pattern()]]
  {
    hide ParseSpec, Item.Written, Item.Writable, Item.Pattern;
    ParseWritten([[item]]);
    assert PrintItems([item]) == written by {
      assert [item][1..] == [] && item.Print() == "" + written && item.Print() + "" == item.Print();
    }
    assert [[item]][1..] == [] && AllPatterns([[item]]) == [ItemPatterns([item])] + [];
    assert ItemPatterns([item]) == [item.Pattern()];
  }
}
