/** Which test cases a written specification selects. */
module SpecMeaning {
  import opened TestSpecs
  import opened SpecGrammar

  // ---------- upper and lower case ----------

  /** The same letter, in upper or lower case, or the same character. */
  predicate SameLetter(c: char, d: char) {
    c == d || ('A' <= c <= 'Z' && d == c - 'A' + 'a') || ('A' <= d <= 'Z' && c == d - 'A' + 'a')
  }

  predicate SameText(a: string, b: string) {
    |a| == |b| && forall i | 0 <= i < |a| :: SameLetter(a[i], b[i])
  }

  predicate LowerCase(s: string) {
    forall i | 0 <= i < |s| :: !('A' <= s[i] <= 'Z')
  }

  lemma LowerIff(a: string, b: string)
    ensures ToLower(a) == ToLower(b) <==> SameText(a, b)
  {
    if ToLower(a) == ToLower(b) {
      forall i | 0 <= i < |a| ensures SameLetter(a[i], b[i]) {
        assert ToLower(a)[i] == ToLower(b)[i];
      }
    }
  }

  lemma LowerStays(s: string)
    ensures LowerCase(s) <==> ToLower(s) == s
    ensures LowerCase(ToLower(s)) && SameText(ToLower(s), s)
  {
    if ToLower(s) == s {
      forall i | 0 <= i < |s| ensures !('A' <= s[i] <= 'Z') {
        assert ToLower(s)[i] == s[i];
      }
    }
  }

  // ---------- names and tags ----------

  predicate StarFirst(text: string) {
    |text| > 0 && text[0] == '*'
  }

  predicate StarLast(text: string) {
    |text| > 1 && text[|text| - 1] == '*'
  }

  function Unstarred(text: string): string {
    text[if StarFirst(text) then 1 else 0..if StarLast(text) then |text| - 1 else |text|]
  }

  /** From `i` to `j` the name is the text in any letter case. */
  ghost predicate FitsFrom(name: string, text: string, i: nat, j: nat) {
    i <= j <= |name| && SameText(name[i..j], text)
  }

  /** The name is the text, with anything in place of a star at its start or end. */
  ghost predicate NameFits(name: string, text: string) {
    exists i: nat, j: nat ::
      FitsFrom(name, Unstarred(text), i, j) && (i == 0 || StarFirst(text)) && (j == |name| || StarLast(text))
  }

  ghost predicate TagFits(tags: set<string>, text: string) {
    exists tag :: tag in tags && LowerCase(tag) && SameText(tag, text)
  }

  lemma StarsAre(text: string)
    ensures Front(text) <==> StarFirst(text)
    ensures Back(text) <==> StarLast(text)
    ensures Core(text) == ToLower(Unstarred(text))
  {
  }

  lemma LowerPart(s: string, i: nat, j: nat)
    requires i <= j <= |s|
    ensures ToLower(s)[i..j] == ToLower(s[i..j])
  {
  }

  lemma NameFitsIff(text: string, t: TestCase)
    requires text != ""
    ensures Matches(MakeName(text), t) <==> NameFits(t.name, text)
  {
    hide Matches, MakeName, ToLower, Front, Back, Core, StarFirst, StarLast, Unstarred, SameText;
    NameMatches(text, t);
    StarsAre(text);
    var lower, core := ToLower(t.name), ToLower(Unstarred(text));
    if before, after :|
      Splits(lower, before, core, after) && (before == "" || Front(text)) && (after == "" || Back(text)) {
      SplitFits(t.name, Unstarred(text), before, after);
      assert FitsFrom(t.name, Unstarred(text), |before|, |before| + |core|);
    }
    if i: nat, j: nat :|
      FitsFrom(t.name, Unstarred(text), i, j) && (i == 0 || StarFirst(text)) && (j == |t.name| || StarLast(text)) {
      FitSplits(t.name, Unstarred(text), i, j);
      assert Splits(lower, lower[..i], core, lower[j..]);
    }
  }

  lemma SplitFits(name: string, text: string, before: string, after: string)
    requires Splits(ToLower(name), before, ToLower(text), after)
    ensures FitsFrom(name, text, |before|, |before| + |text|) && |before| + |text| + |after| == |name|
  {
    var i, j := |before|, |before| + |text|;
    assert ToLower(name)[i..j] == ToLower(text);
    LowerPart(name, i, j);
    LowerIff(name[i..j], text);
  }

  lemma FitSplits(name: string, text: string, i: nat, j: nat)
    requires FitsFrom(name, text, i, j)
    ensures Splits(ToLower(name), ToLower(name)[..i], ToLower(text), ToLower(name)[j..])
  {
    LowerPart(name, i, j);
    LowerIff(name[i..j], text);
    var lower := ToLower(name);
    assert lower == lower[..i] + lower[i..j] + lower[j..];
  }

  lemma TagFitsIff(text: string, t: TestCase)
    ensures Matches(MakeTag(text), t) <==> TagFits(t.lcaseTags, text)
  {
    LowerStays(text);
    if tag :| tag in t.lcaseTags && LowerCase(tag) && SameText(tag, text) {
      LowerIff(tag, text);
      LowerStays(tag);
      assert tag == ToLower(text);
    }
    if ToLower(text) in t.lcaseTags {
      assert TagFits(t.lcaseTags, text);
    }
  }

  // ---------- specifications ----------

  /** What is written fits the test case, or, if it is excluded, does not. */
  ghost predicate Holds(item: Item, t: TestCase) {
    (if item.kind == InBrackets then TagFits(t.lcaseTags, item.text) else NameFits(t.name, item.text))
    == (item.mark == Included)
  }

  lemma HoldsIff(item: Item, t: TestCase)
    requires item.text != ""
    ensures Matches(item.Pattern(), t) <==> Holds(item, t)
  {
    hide NameFits, TagFits, MakeName, MakeTag;
    if item.kind == InBrackets {
      TagFitsIff(item.text, t);
    } else {
      NameFitsIff(item.text, t);
    }
  }

  ghost predicate AllMatch(f: Filter, t: TestCase) {
    forall p | p in f :: Matches(p, t)
  }

  ghost predicate AllHold(items: seq<Item>, t: TestCase) {
    forall item | item in items :: Holds(item, t)
  }

  lemma AllHoldIff(items: seq<Item>, t: TestCase)
    requires WellWritten(items)
    ensures AllMatch(ItemPatterns(items), t) <==> AllHold(items, t)
  {
    hide Matches, Holds, Item.Pattern;
    var f := ItemPatterns(items);
    forall i | 0 <= i < |items| ensures Matches(f[i], t) <==> Holds(items[i], t) {
      assert items[i].Writable();
      HoldsIff(items[i], t);
    }
    if AllMatch(f, t) {
      forall i | 0 <= i < |items| ensures Holds(items[i], t) {
        assert f[i] in f;
      }
    }
  }

  ghost predicate SomeMatches(fs: seq<Filter>, t: TestCase) {
    exists f :: f in fs && AllMatch(f, t)
  }

  ghost predicate SomeHolds(filters: seq<seq<Item>>, t: TestCase) {
    exists items :: items in filters && items != [] && AllHold(items, t)
  }

  lemma {:induction false} SomeHoldsIff(filters: seq<seq<Item>>, t: TestCase)
    requires forall f | f in filters :: WellWritten(f)
    ensures SomeMatches(AllPatterns(filters), t) <==> SomeHolds(filters, t)
  {
    hide AllMatch, AllHold, WellWritten, ItemPatterns;
    if filters != [] {
      var first, more := filters[0], filters[1..];
      assert first in filters;
      AllHoldIff(first, t);
      SomeHoldsIff(more, t);
      assert filters == [first] + more;
      var here := if first == [] then [] else [ItemPatterns(first)];
      assert AllPatterns(filters) == here + AllPatterns(more);
    }
  }

  /** A written specification selects the test cases of which everything holds that is written in one of its
      filters. */
  lemma SelectsIff(filters: seq<seq<Item>>, t: TestCase)
    requires forall f | f in filters :: WellWritten(f)
    ensures (exists f :: f in ParseSpec(PrintAll(filters)) && forall p | p in f :: Matches(p, t))
            <==> exists items :: items in filters && items != [] && forall item | item in items :: Holds(item, t)
  {
    hide ParseSpec, PrintAll, AllPatterns, WellWritten, Matches, Holds;
    ParseWritten(filters);
    SomeHoldsIff(filters, t);
    var fs := AllPatterns(filters);
    assert SomeMatches(fs, t) <==> exists f :: f in fs && forall p | p in f :: Matches(p, t);
    assert SomeHolds(filters, t)
      <==> exists items :: items in filters && items != [] && forall item | item in items :: Holds(item, t);
  }
}
