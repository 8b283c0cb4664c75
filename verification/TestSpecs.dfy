/** Test specifications: the character-driven parser, and what a parsed specification matches. */
module TestSpecs {
  import Basics

  // ---------- patterns ----------

  datatype Wildcard = NoWildcard | AtStart | AtEnd | AtBothEnds

  datatype Pattern =
    | NamePattern(name: string, wildcard: Wildcard)
    | TagPattern(tag: string)
    | ExcludedPattern(pattern: Pattern)

  type Filter = seq<Pattern>

  datatype TestCase = TestCase(name: string, lcaseTags: set<string>)

  function ToLower(s: string): (r: string)
    ensures |r| == |s|
  {
    seq(|s|, i requires 0 <= i < |s| => if 'A' <= s[i] <= 'Z' then s[i] - 'A' + 'a' else s[i])
  }

  predicate StartsWith(s: string, prefix: string) {
    prefix <= s
  }

  predicate EndsWith(s: string, suffix: string) {
    |suffix| <= |s| && s[|s| - |suffix|..] == suffix
  }

  predicate Contains(s: string, infix: string) {
    exists i: nat | i <= |s| :: Basics.OccursAt(s, infix, i)
  }

  /** The constructor of a name pattern: a star at either end is a wildcard. */
  function MakeName(token: string): Pattern {
    var lower := ToLower(token);
    var front := StartsWith(lower, "*");
    var rest := if front then lower[1..] else lower;
    var back := EndsWith(rest, "*");
    NamePattern(if back then rest[..|rest| - 1] else rest,
                if front && back then AtBothEnds else if front then AtStart else if back then AtEnd else NoWildcard)
  }

  function MakeTag(token: string): Pattern {
    TagPattern(ToLower(token))
  }

  predicate Matches(p: Pattern, t: TestCase) {
    match p
    case NamePattern(name, wildcard) =>
      (match wildcard
       case NoWildcard => name == ToLower(t.name)
       case AtStart => EndsWith(ToLower(t.name), name)
       case AtEnd => StartsWith(ToLower(t.name), name)
       case AtBothEnds => Contains(ToLower(t.name), name))
    case TagPattern(tag) => tag in t.lcaseTags
    case ExcludedPattern(pattern) => !Matches(pattern, t)
  }

  predicate Front(token: string) {
    |token| > 0 && ToLower(token)[0] == '*'
  }

  predicate Back(token: string) {
    |token| > 1 && ToLower(token)[|token| - 1] == '*'
  }

  /** The text of a name pattern without the stars at its ends. */
  function Core(token: string): string {
    ToLower(token)[if Front(token) then 1 else 0..if Back(token) then |token| - 1 else |token|]
  }

  lemma NameShape(token: string)
    requires token != ""
    ensures MakeName(token) == NamePattern(Core(token),
              if Front(token) && Back(token) then AtBothEnds
              else if Front(token) then AtStart else if Back(token) then AtEnd else NoWildcard)
  {
    var lower := ToLower(token);
    var rest := if Front(token) then lower[1..] else lower;
    assert StartsWith(lower, "*") <==> Front(token);
    if |rest| > 0 {
      assert rest[|rest| - 1..] == [lower[|token| - 1]];
    }
    assert EndsWith(rest, "*") <==> Back(token);
  }

  ghost predicate Splits(name: string, before: string, core: string, after: string) {
    name == before + core + after
  }

  /** Whether `name` is `core` with anything before it if `front`, after it if `back`. */
  ghost predicate Globs(name: string, core: string, front: bool, back: bool) {
    exists before, after ::
      Splits(name, before, core, after) && (before == "" || front) && (after == "" || back)
  }

  lemma GlobsIff(name: string, core: string, front: bool, back: bool)
    ensures Globs(name, core, front, back)
            <==> if front && back then Contains(name, core)
                 else if front then EndsWith(name, core)
                 else if back then StartsWith(name, core)
                 else name == core
  {
    if front && back {
      if i: nat :| i <= |name| && Basics.OccursAt(name, core, i) {
        assert Splits(name, name[..i], core, name[i + |core|..]);
      }
    } else if front {
      if EndsWith(name, core) {
        assert Splits(name, name[..|name| - |core|], core, "");
      }
    } else if back {
      if StartsWith(name, core) {
        assert Splits(name, "", core, name[|core|..]);
      }
    } else {
      assert name == core ==> Splits(name, "", core, "");
    }
    if before, after :| Splits(name, before, core, after) && (before == "" || front) && (after == "" || back) {
      SplitMeans(name, before, core, after);
    }
  }

  lemma SplitMeans(name: string, before: string, core: string, after: string)
    requires Splits(name, before, core, after)
    ensures Contains(name, core)
    ensures after == "" ==> EndsWith(name, core)
    ensures before == "" ==> StartsWith(name, core)
    ensures before == "" && after == "" ==> name == core
  {
    assert Basics.OccursAt(name, core, |before|);
    assert after == "" ==> name[|name| - |core|..] == core;
  }

  /** A name pattern matches the names that are its text up to case, with anything in place
      of a star at its start or end. A lone star matches every name. */
  lemma NameMatches(token: string, t: TestCase)
    requires token != ""
    ensures Matches(MakeName(token), t) <==> Globs(ToLower(t.name), Core(token), Front(token), Back(token))
  {
    hide Core, ToLower, Front, Back, Globs;
    NameShape(token);
    GlobsIff(ToLower(t.name), Core(token), Front(token), Back(token));
  }

  /** All patterns of a filter must match. */
  method FilterMatches(patterns: Filter, t: TestCase) returns (matches: bool)
    ensures matches <==> forall p | p in patterns :: Matches(p, t)
  {
    for i := 0 to |patterns|
      invariant forall j | 0 <= j < i :: Matches(patterns[j], t)
    {
      if !Matches(patterns[i], t) {
        assert patterns[i] in patterns;
        return false;
      }
    }
    return true;
  }

  /** Some filter of a specification must match. */
  method SpecMatches(filters: seq<Filter>, t: TestCase) returns (matches: bool)
    ensures matches <==> exists f | f in filters :: forall p | p in f :: Matches(p, t)
  {
    for i := 0 to |filters|
      invariant forall j | 0 <= j < i :: !forall p | p in filters[j] :: Matches(p, t)
    {
      var m := FilterMatches(filters[i], t);
      if m {
        assert filters[i] in filters;
        return true;
      }
    }
    return false;
  }

  // ---------- the parser on values ----------

  datatype Mode = None | Name | QuotedName | Tag

  const NPOS: nat := 0xFFFF_FFFF_FFFF_FFFF

  datatype State = State(mode: Mode, exclusion: bool, start: nat, pos: nat, arg: string,
                         currentFilter: Filter, filters: seq<Filter>)
  {
    /** A token that has begun begins no later than the position being read. */
    predicate Ordered() {
      mode != None ==> start <= pos
    }
  }

  function SubString(s: State): string
    requires s.start <= s.pos <= |s.arg|
  {
    s.arg[s.start..s.pos]
  }

  const EXCLUDE := "exclude:"

  /** The patterns a token adds: none if nothing is left of it. */
  function TokenPatterns(token: string, tag: bool, exclusion: bool): Filter {
    var excluded := exclusion || StartsWith(token, EXCLUDE);
    var text := if StartsWith(token, EXCLUDE) then token[8..] else token;
    var pattern := if tag then MakeTag(text) else MakeName(text);
    if text == "" then [] else [if excluded then ExcludedPattern(pattern) else pattern]
  }

  function AddPattern(s: State, tag: bool): State
    requires s.start <= s.pos <= |s.arg|
  {
    s.(currentFilter := s.currentFilter + TokenPatterns(SubString(s), tag, s.exclusion),
       exclusion := false, mode := None)
  }

  function AddFilter(s: State): State {
    if s.currentFilter == [] then s
    else s.(filters := s.filters + [s.currentFilter], currentFilter := [])
  }

  function Visit(s: State): (r: State)
    requires s.pos < |s.arg| && s.Ordered()
    ensures r.arg == s.arg && s.pos <= r.pos && r.Ordered()
  {
    var c := s.arg[s.pos];
    if s.mode == None && c == ' ' then s
    else if s.mode == None && c == '~' then s.(exclusion := true)
    else if s.mode == None && c == '[' then s.(pos := s.pos + 1, mode := Tag, start := s.pos + 1)
    else if s.mode == None && c == '"' then s.(pos := s.pos + 1, mode := QuotedName, start := s.pos + 1)
    else
      var s := if s.mode == None then s.(mode := Name, start := s.pos) else s;
      if s.mode == Name then
        if c == ',' then AddFilter(AddPattern(s, false))
        else if c == '[' then
          var s := if SubString(s) == EXCLUDE then s.(exclusion := true) else AddPattern(s, false);
          s.(pos := s.pos + 1, mode := Tag, start := s.pos + 1)
        else s
      else if s.mode == QuotedName && c == '"' then AddPattern(s, false)
      else if s.mode == Tag && c == ']' then AddPattern(s, true)
      else s
  }

  /** The loop of `parse`, which advances once more after every character visited. */
  function Scan(s: State): (r: State)
    requires s.Ordered()
    ensures r.Ordered() && r.arg == s.arg && r.pos >= |s.arg|
    ensures s.pos <= |s.arg| && r.mode == Name ==> r.pos == |s.arg|
    decreases |s.arg| - s.pos
  {
    if s.pos >= |s.arg| then s else var v := Visit(s); Scan(v.(pos := v.pos + 1))
  }

  lemma ScanStep(s: State)
    requires s.Ordered() && s.pos < |s.arg|
    ensures var v := Visit(s);
            v.(pos := v.pos + 1).Ordered() && Scan(s) == Scan(v.(pos := v.pos + 1))
  {
  }

  function Start(s: State, arg: string): State {
    s.(mode := None, exclusion := false, start := NPOS, pos := 0, arg := arg)
  }

  function Parse(s: State, arg: string): State {
    var r := Scan(Start(s, arg));
    if r.mode == Name then AddPattern(r, false) else r
  }

  const INITIAL := State(None, false, NPOS, 0, "", [], [])

  /** Several texts parsed one after another, as the arguments of a command line are. */
  function ParseEach(s: State, args: seq<string>): State
    decreases |args|
  {
    if args == [] then s else ParseEach(Parse(s, args[0]), args[1..])
  }

  /** The filters of a specification text. */
  function ParseSpec(arg: string): seq<Filter> {
    AddFilter(Parse(INITIAL, arg)).filters
  }

  // ---------- the parser as the program has it ----------

  class TestSpecParser {
    var mode: Mode
    var exclusion: bool
    var start: nat
    var pos: nat
    var arg: string
    var currentFilter: Filter
    var filters: seq<Filter>

    function Current(): State
      reads this
    {
      State(mode, exclusion, start, pos, arg, currentFilter, filters)
    }

    constructor ()
      ensures Current() == INITIAL
    {
      mode, exclusion, start, pos, arg := None, false, NPOS, 0, "";
      currentFilter, filters := [], [];
    }

    /** `expandAliases` stands for the registry of tag aliases. */
    method ParseText(text: string, expandAliases: string -> string)
      modifies this
      ensures Current() == Parse(old(Current()), expandAliases(text))
    {
      mode := None;
      exclusion := false;
      start := NPOS;
      arg := expandAliases(text);
      pos := 0;
      VisitAll();
      if mode == Name {
        AddToken(false);
      }
    }

    /** The loop over the characters. */
    method VisitAll()
      requires Current().Ordered()
      modifies this
      ensures Current() == Scan(old(Current()))
    {
      hide Scan, Visit;
      ghost var s0 := Current();
      while pos < |arg|
        invariant Current().Ordered() && Scan(s0) == Scan(Current())
        decreases |arg| - pos
      {
        ScanStep(Current());
        VisitChar(arg[pos]);
        pos := pos + 1;
      }
      ScanEnd(Current());
    }

    method TestSpec() returns (spec: seq<Filter>)
      modifies this
      ensures Current() == AddFilter(old(Current())) && spec == filters
    {
      EndFilter();
      spec := filters;
    }

    method VisitChar(c: char)
      requires pos < |arg| && c == arg[pos] && Current().Ordered()
      modifies this
      ensures Current() == Visit(old(Current()))
    {
      if mode == None {
        match c {
          case ' ' => return;
          case '~' => exclusion := true; return;
          case '[' => pos := pos + 1; StartNewMode(Tag, pos); return;
          case '"' => pos := pos + 1; StartNewMode(QuotedName, pos); return;
          case _ => StartNewMode(Name, pos);
        }
      }
      if mode == Name {
        if c == ',' {
          AddToken(false);
          EndFilter();
        } else if c == '[' {
          if arg[start..pos] == EXCLUDE {
            exclusion := true;
          } else {
            AddToken(false);
          }
          pos := pos + 1;
          StartNewMode(Tag, pos);
        }
      } else if mode == QuotedName && c == '"' {
        AddToken(false);
      } else if mode == Tag && c == ']' {
        AddToken(true);
      }
    }

    method StartNewMode(newMode: Mode, newStart: nat)
      modifies this
      ensures Current() == old(Current()).(mode := newMode, start := newStart)
    {
      mode := newMode;
      start := newStart;
    }

    method AddToken(tag: bool)
      requires start <= pos <= |arg|
      modifies this
      ensures Current() == AddPattern(old(Current()), tag)
    {
      var token := arg[start..pos];
      if StartsWith(token, EXCLUDE) {
        exclusion := true;
        token := token[8..];
      }
      if token != "" {
        var pattern := if tag then MakeTag(token) else MakeName(token);
        if exclusion {
          pattern := ExcludedPattern(pattern);
        }
        currentFilter := currentFilter + [pattern];
      }
      exclusion := false;
      mode := None;
    }

    method EndFilter()
      modifies this
      ensures Current() == AddFilter(old(Current()))
    {
      if currentFilter != [] {
        filters := filters + [currentFilter];
        currentFilter := [];
      }
    }
  }

  /** `parseTestSpec`. */
  method ParseTestSpec(text: string, expandAliases: string -> string) returns (spec: seq<Filter>)
    ensures spec == ParseSpec(expandAliases(text))
  {
    var parser := new TestSpecParser();
    parser.ParseText(text, expandAliases);
    spec := parser.TestSpec();
  }

  /** What the configuration does with the arguments of a command line. */
  method ConfiguredSpec(args: seq<string>, expandAliases: string -> string) returns (spec: seq<Filter>)
    ensures var texts := seq(|args|, i requires 0 <= i < |args| => expandAliases(args[i]));
            spec == AddFilter(ParseEach(INITIAL, texts)).filters
  {
    hide Parse, AddFilter;
    var parser := new TestSpecParser();
    ghost var texts := seq(|args|, i requires 0 <= i < |args| => expandAliases(args[i]));
    var i := 0;
    while i < |args|
      invariant 0 <= i <= |args| && fresh(parser)
      invariant ParseEach(INITIAL, texts) == ParseEach(parser.Current(), texts[i..])
    {
      assert texts[i..][1..] == texts[i + 1..];
      parser.ParseText(args[i], expandAliases);
      i := i + 1;
    }
    spec := parser.TestSpec();
  }

  // ---------- printing and parsing back ----------

  /** A name in quotes or a tag in brackets, possibly excluded by `~`. */
  datatype Term = Term(excluded: bool, tag: bool, text: string) {
    /** Only the first character of the text is never taken for its end: it is skipped unseen. */
    predicate Printable() {
      text != "" && Close() !in text[1..]
    }

    function Open(): string {
      (if excluded then "~" else "") + if tag then "[" else "\""
    }

    function Close(): char {
      if tag then ']' else '"'
    }

    function Print(): string {
      Open() + text + [Close()]
    }

    /** The patterns the term stands for; the prefix `exclude:` in the text excludes it too. */
    function Patterns(): Filter {
      TokenPatterns(text, tag, excluded)
    }

    function Pattern(): Pattern {
      var p := if tag then MakeTag(text) else MakeName(text);
      if excluded then ExcludedPattern(p) else p
    }
  }

  function PrintFilter(terms: seq<Term>): string {
    if terms == [] then "" else terms[0].Print() + PrintFilter(terms[1..])
  }

  function PrintSpec(filters: seq<seq<Term>>): string {
    if filters == [] then ""
    else if |filters| == 1 then PrintFilter(filters[0])
    else PrintFilter(filters[0]) + "," + PrintSpec(filters[1..])
  }

  function FilterPatterns(terms: seq<Term>): Filter {
    if terms == [] then [] else terms[0].Patterns() + FilterPatterns(terms[1..])
  }

  /** The filters of a list of terms; one without patterns is dropped. */
  function SpecFilters(filters: seq<seq<Term>>): seq<Filter> {
    if filters == [] then []
    else
      var f := FilterPatterns(filters[0]);
      (if f == [] then [] else [f]) + SpecFilters(filters[1..])
  }

  ghost predicate AllPrintable(terms: seq<Term>) {
    forall t | t in terms :: t.Printable()
  }

  /** Inside a quoted name or a tag, characters other than the closing one are passed over. */
  lemma {:induction false} SkipText(s: State, n: nat, close: char)
    requires s.mode == (if close == ']' then Tag else QuotedName) && s.Ordered()
    requires close == ']' || close == '"'
    requires s.pos + n <= |s.arg| && forall i | s.pos <= i < s.pos + n :: s.arg[i] != close
    ensures Scan(s) == Scan(s.(pos := s.pos + n))
    decreases n
  {
    hide Scan;
    if n > 0 {
      ScanStep(s);
      SkipText(s.(pos := s.pos + 1), n - 1, close);
    }
  }

  /** The state after a printed term, from a state between tokens. */
  function AfterTerm(s: State, t: Term): State {
    s.(pos := s.pos + |t.Print()|, start := s.pos + |t.Open()|,
       currentFilter := s.currentFilter + t.Patterns())
  }

  lemma AfterTermFields(s: State, t: Term)
    ensures var a := AfterTerm(s, t);
            a.arg == s.arg && a.filters == s.filters && a.currentFilter == s.currentFilter + t.Patterns()
  {
  }

  predicate Between(s: State) {
    s.mode == None && !s.exclusion
  }

  lemma At(s: State, text: string, rest: string, i: nat)
    requires s.pos <= |s.arg| && s.arg[s.pos..] == text + rest && i < |text|
    ensures s.pos + i < |s.arg| && s.arg[s.pos + i] == text[i]
  {
    assert s.arg[s.pos + i] == s.arg[s.pos..][i];
  }

  /** Reading the opening of a term. */
  lemma {:induction false} ScanOpen(s: State, t: Term, rest: string)
    requires Between(s) && s.pos <= |s.arg| && s.arg[s.pos..] == t.Print() + rest
    ensures var from := s.pos + |t.Open()|;
            Scan(s) == Scan(s.(exclusion := t.excluded, mode := if t.tag then Tag else QuotedName,
                               start := from, pos := from + 1))
  {
    hide Scan;
    At(s, t.Print(), rest, 0);
    ScanStep(s);
    if t.excluded {
      At(s, t.Print(), rest, 1);
      ScanStep(s.(pos := s.pos + 1, exclusion := true));
    }
  }

  /** Reading the rest of a term once it has been opened. */
  lemma {:induction false} ScanText(s: State, t: Term, from: nat)
    requires s.mode == (if t.tag then Tag else QuotedName) && s.exclusion == t.excluded
    requires s.start == from && s.pos == from + 1 && t.Printable() && from + |t.text| < |s.arg|
    requires s.arg[from..from + |t.text|] == t.text && s.arg[from + |t.text|] == t.Close()
    ensures Scan(s) == Scan(s.(pos := from + |t.text| + 1, mode := None, exclusion := false,
                               currentFilter := s.currentFilter + t.Patterns()))
  {
    hide Scan, TokenPatterns;
    forall i | from < i < from + |t.text| ensures s.arg[i] != t.Close() {
      assert s.arg[i] == s.arg[from..from + |t.text|][i - from] == t.text[i - from] == t.text[1..][i - from - 1];
    }
    SkipText(s, |t.text| - 1, t.Close());
    ScanStep(s.(pos := from + |t.text|));
  }

  lemma {:induction false} ScanTerm(s: State, t: Term, rest: string)
    requires Between(s) && t.Printable() && s.pos <= |s.arg| && s.arg[s.pos..] == t.Print() + rest
    ensures var a := AfterTerm(s, t);
            && Between(a) && a.pos <= |a.arg| && a.arg[a.pos..] == rest
            && Scan(s) == Scan(a)
  {
    hide Scan, TokenPatterns;
    var from := s.pos + |t.Open()|;
    ScanOpen(s, t, rest);
    forall i | 0 <= i < |t.text| ensures s.arg[from + i] == t.text[i] {
      At(s, t.Print(), rest, |t.Open()| + i);
    }
    At(s, t.Print(), rest, |t.Open()| + |t.text|);
    assert s.arg[from..from + |t.text|] == t.text;
    ScanText(s.(exclusion := t.excluded, mode := if t.tag then Tag else QuotedName,
                start := from, pos := from + 1), t, from);
    var a := AfterTerm(s, t);
    assert s.arg[a.pos..] == s.arg[s.pos..][|t.Print()|..] == rest;
  }

  lemma {:induction false} ScanFilter(s: State, terms: seq<Term>, rest: string) returns (r: State)
    requires Between(s) && AllPrintable(terms) && s.pos <= |s.arg|
    requires s.arg[s.pos..] == PrintFilter(terms) + rest
    ensures Between(r) && r.arg == s.arg && r.pos <= |r.arg| && r.arg[r.pos..] == rest && Scan(s) == Scan(r)
    ensures r.currentFilter == s.currentFilter + FilterPatterns(terms) && r.filters == s.filters
    decreases |terms|
  {
    hide Scan, AfterTerm, TokenPatterns;
    if terms == [] {
      r := s;
      assert s.currentFilter == s.currentFilter + [];
    } else {
      var t := terms[0];
      assert t in terms;
      assert t.Print() + (PrintFilter(terms[1..]) + rest) == PrintFilter(terms) + rest;
      ScanTerm(s, t, PrintFilter(terms[1..]) + rest);
      r := ScanFilter(AfterTerm(s, t), terms[1..], rest);
      AfterTermFields(s, t);
    }
  }

  lemma ScanComma(s: State, rest: string)
    requires Between(s) && s.pos <= |s.arg| && s.arg[s.pos..] == "," + rest
    ensures var r := AddFilter(s).(start := s.pos, pos := s.pos + 1);
            && Between(r) && r.pos <= |r.arg| && r.arg[r.pos..] == rest
            && Scan(s) == Scan(r)
  {
    hide Scan;
    assert s.arg[s.pos] == (s.arg[s.pos..])[0] == ',';
    var named := s.(mode := Name, start := s.pos);
    assert SubString(named) == "";
    assert AddPattern(named, false) == s.(start := s.pos);
    assert s.arg[s.pos + 1..] == s.arg[s.pos..][1..] == rest;
    ScanStep(s);
  }

  lemma {:induction false} ScanSpec(s: State, filters: seq<seq<Term>>) returns (r: State)
    requires Between(s) && s.currentFilter == [] && s.pos <= |s.arg|
    requires forall f | f in filters :: AllPrintable(f)
    requires s.arg[s.pos..] == PrintSpec(filters)
    ensures Scan(s) == r && r.mode == None
    ensures AddFilter(r).filters == s.filters + SpecFilters(filters)
    decreases |filters|
  {
    hide PrintFilter, FilterPatterns;
    if filters == [] {
      assert s.pos == |s.arg|;
      r := s;
      assert AddFilter(r).filters == s.filters + [];
    } else if |filters| == 1 {
      assert PrintFilter(filters[0]) + "" == PrintSpec(filters);
      r := ScanFilter(s, filters[0], "");
      assert r.pos == |r.arg|;
      assert filters[1..] == [];
      NextFilter(s, r, filters);
    } else {
      assert PrintFilter(filters[0]) + ("," + PrintSpec(filters[1..])) == PrintSpec(filters);
      var m := ScanFilter(s, filters[0], "," + PrintSpec(filters[1..]));
      ScanComma(m, PrintSpec(filters[1..]));
      r := ScanSpec(AddFilter(m).(start := m.pos, pos := m.pos + 1), filters[1..]);
      NextFilter(s, m, filters);
    }
  }

  /** What the end of a filter adds to the filters of a specification. */
  lemma {:induction false} NextFilter(s: State, m: State, filters: seq<seq<Term>>)
    requires filters != [] && s.currentFilter == []
    requires m.filters == s.filters && m.currentFilter == s.currentFilter + FilterPatterns(filters[0])
    ensures AddFilter(m).filters + SpecFilters(filters[1..]) == s.filters + SpecFilters(filters)
  {
    var f := FilterPatterns(filters[0]);
    assert m.currentFilter == f;
    if f == [] {
      assert SpecFilters(filters) == [] + SpecFilters(filters[1..]) == SpecFilters(filters[1..]);
    } else {
      assert s.filters + [f] + SpecFilters(filters[1..]) == s.filters + ([f] + SpecFilters(filters[1..]));
    }
  }

  /** Parsing a printed specification gives back its filters. */
  lemma ParsePrinted(filters: seq<seq<Term>>)
    requires forall f | f in filters :: AllPrintable(f)
    ensures ParseSpec(PrintSpec(filters)) == SpecFilters(filters)
  {
    var s := Start(INITIAL, PrintSpec(filters));
    assert s.arg[0..] == s.arg;
    var r := ScanSpec(s, filters);
  }

  ghost predicate Plain(terms: seq<Term>) {
    terms != [] && forall t | t in terms :: t.Printable() && !StartsWith(t.text, EXCLUDE)
  }

  lemma {:induction false} PlainPatterns(terms: seq<Term>)
    requires forall t | t in terms :: t.Printable() && !StartsWith(t.text, EXCLUDE)
    ensures FilterPatterns(terms) == seq(|terms|, i requires 0 <= i < |terms| => terms[i].Pattern())
  {
    if terms != [] {
      assert terms[0] in terms;
      PlainPatterns(terms[1..]);
    }
  }

  lemma {:induction false} PlainFilters(filters: seq<seq<Term>>)
    requires forall f | f in filters :: Plain(f)
    ensures |SpecFilters(filters)| == |filters|
    ensures forall i | 0 <= i < |filters| :: SpecFilters(filters)[i] == FilterPatterns(filters[i])
  {
    if filters != [] {
      assert filters[0] in filters;
      PlainPatterns(filters[0]);
      PlainFilters(filters[1..]);
    }
  }

  /** Without the prefix `exclude:` nothing is lost: each term comes back as its own pattern. */
  lemma ParsePlain(filters: seq<seq<Term>>)
    requires forall f | f in filters :: Plain(f)
    ensures var spec := ParseSpec(PrintSpec(filters));
            && |spec| == |filters|
            && forall i | 0 <= i < |filters| ::
                 && |spec[i]| == |filters[i]|
                 && forall j | 0 <= j < |filters[i]| :: spec[i][j] == filters[i][j].Pattern()
  {
    ParsePrinted(filters);
    PlainFilters(filters);
    forall i | 0 <= i < |filters| ensures FilterPatterns(filters[i])
      == seq(|filters[i]|, j requires 0 <= j < |filters[i]| => filters[i][j].Pattern())
    {
      assert filters[i] in filters;
      PlainPatterns(filters[i]);
    }
  }

  // ---------- what does not read back ----------

  /** The length of the text a pattern was made from. */
  function Size(p: Pattern): nat {
    match p
    case NamePattern(name, wildcard) =>
      |name| + (match wildcard case NoWildcard => 0 case AtStart => 1 case AtEnd => 1 case AtBothEnds => 2)
    case TagPattern(tag) => |tag|
    case ExcludedPattern(pattern) => Size(pattern)
  }

  predicate AllSmaller(patterns: Filter, n: nat) {
    forall p | p in patterns :: Size(p) < n
  }

  lemma TokenSize(token: string, tag: bool, exclusion: bool)
    ensures forall p | p in TokenPatterns(token, tag, exclusion) ::
              Size(p) == if StartsWith(token, EXCLUDE) then |token| - 8 else |token|
  {
  }

  /** Every pattern read so far comes from a text shorter than `n`, and so will those to come. */
  ghost predicate Short(s: State, n: nat) {
    && s.Ordered()
    && AllSmaller(s.currentFilter, n)
    && (forall f | f in s.filters :: AllSmaller(f, n))
    && |s.arg| - s.pos < n
    && (s.mode != None ==> |s.arg| - s.start < n)
  }

  lemma AddPatternShort(s: State, n: nat, tag: bool)
    requires Short(s, n) && s.mode != None && s.pos <= |s.arg|
    ensures Short(AddPattern(s, tag), n)
  {
    TokenSize(SubString(s), tag, s.exclusion);
  }

  lemma VisitShort(s: State, n: nat)
    requires Short(s, n) && s.pos < |s.arg|
    ensures var v := Visit(s); Short(v.(pos := v.pos + 1), n)
  {
    hide AddPattern, Size;
    var named := if s.mode == None then s.(mode := Name, start := s.pos) else s;
    AddPatternShort(named, n, false);
    AddPatternShort(named, n, true);
  }

  lemma {:induction false} ScanShort(s: State, n: nat)
    requires Short(s, n)
    ensures Short(Scan(s), n)
    decreases |s.arg| - s.pos
  {
    hide Visit;
    if s.pos < |s.arg| {
      VisitShort(s, n);
      var v := Visit(s);
      ScanShort(v.(pos := v.pos + 1), n);
    }
  }

  /** From a state whose patterns and remaining text are short, only short patterns come. */
  lemma ParsedShort(arg: string, s: State, n: nat)
    requires Short(s, n) && Scan(Start(INITIAL, arg)) == Scan(s) && s.arg == arg && s.pos <= |arg|
    ensures forall f | f in ParseSpec(arg) :: AllSmaller(f, n)
  {
    hide Scan, AddPattern;
    ScanShort(s, n);
    var r := Scan(s);
    if r.mode == Name {
      AddPatternShort(r, n, false);
    }
  }

  /** A text that holds its own closing character after its first is cut there. */
  lemma CutTerm(t: Term, i: nat)
    requires 0 < i < |t.text| && t.text[i] == t.Close() && t.Close() !in t.text[1..i]
    ensures forall f | f in ParseSpec(t.Print()) :: AllSmaller(f, |t.text|)
  {
    hide Scan, TokenPatterns;
    var u := t.(text := t.text[..i]);
    var rest := t.text[i + 1..] + [t.Close()];
    assert u.text[1..] == t.text[1..i];
    assert t.text == t.text[..i] + [t.text[i]] + t.text[i + 1..];
    assert t.Print() == u.Print() + rest;
    var s := Start(INITIAL, t.Print());
    assert s.arg[s.pos..] == u.Print() + rest;
    ScanTerm(s, u, rest);
    TokenSize(u.text, u.tag, u.excluded);
    assert [] + u.Patterns() == u.Patterns();
    ParsedShort(t.Print(), AfterTerm(s, u), |t.text|);
  }

  lemma EmptyTerm(t: Term, rest: string)
    requires t.text == "" && t.Close() !in rest
    ensures ParseSpec(t.Print() + rest) == []
  {
    hide Scan;
    var s := Start(INITIAL, t.Print() + rest);
    assert s.arg[s.pos..] == t.Print() + rest;
    ScanOpen(s, t, rest);
    var from := |t.Open()|;
    var r := s.(exclusion := t.excluded, mode := if t.tag then Tag else QuotedName, start := from, pos := from + 1);
    forall i | r.pos <= i < |r.arg| ensures r.arg[i] != t.Close() {
      assert r.arg[i] == rest[i - r.pos];
    }
    SkipText(r, |rest|, t.Close());
    ScanEnd(r.(pos := |r.arg|));
  }

  lemma SmallerIsOther(t: Term, spec: seq<Filter>)
    requires forall f | f in spec :: AllSmaller(f, |t.text|)
    ensures spec != [[t.Pattern()]]
  {
    assert Size(t.Pattern()) == |t.text|;
    assert [t.Pattern()] in [[t.Pattern()]] && t.Pattern() in [t.Pattern()];
  }

  lemma PlainReadsBack(t: Term)
    requires t.Printable() && !StartsWith(t.text, EXCLUDE)
    ensures ParseSpec(t.Print()) == [[t.Pattern()]]
  {
    hide ParseSpec, Term.Print, Term.Pattern;
    OneTerm(t);
    ParsePlain([[t]]);
    var spec := ParseSpec(t.Print());
    assert spec[0][0] == t.Pattern();
    assert spec[0] == [t.Pattern()] && spec == [spec[0]];
  }

  lemma PrefixIsCut(t: Term)
    requires t.Printable() && StartsWith(t.text, EXCLUDE)
    ensures forall f | f in ParseSpec(t.Print()) :: AllSmaller(f, |t.text|)
  {
    hide ParseSpec, TokenPatterns, Term.Print;
    OneTerm(t);
    ParsePrinted([[t]]);
    TokenSize(t.text, t.tag, t.excluded);
  }

  /** A quoted name or a tag reads back as its pattern if and only if it is not empty, holds its closing
      character nowhere but as its first, and does not begin with the prefix `exclude:`. */
  lemma TermReadsBackIff(t: Term)
    ensures ParseSpec(t.Print()) == [[t.Pattern()]]
            <==> t.text != "" && t.Close() !in t.text[1..] && !StartsWith(t.text, EXCLUDE)
  {
    hide ParseSpec, TokenPatterns, Term.Print, Term.Pattern, AllSmaller;
    if t.text == "" {
      EmptyTerm(t, "");
      assert t.Print() + "" == t.Print();
    } else if t.Close() in t.text[1..] {
      var i := FirstClose(t.text, 1, t.Close());
      CutTerm(t, i);
      SmallerIsOther(t, ParseSpec(t.Print()));
    } else if StartsWith(t.text, EXCLUDE) {
      PrefixIsCut(t);
      SmallerIsOther(t, ParseSpec(t.Print()));
    } else {
      PlainReadsBack(t);
    }
  }

  lemma OneTerm(t: Term)
    ensures PrintSpec([[t]]) == t.Print()
    ensures SpecFilters([[t]]) == if t.Patterns() == [] then [] else [t.Patterns()]
  {
    hide TokenPatterns, Term.Print;
    assert PrintFilter([t]) == t.Print() by {
      assert [t][1..] == [] && t.Print() + "" == t.Print();
    }
    assert FilterPatterns([t]) == t.Patterns() by {
      assert [t][1..] == [] && t.Patterns() + [] == t.Patterns();
    }
    assert [[t]][1..] == [] && SpecFilters([]) == [];
    assert [t.Patterns()] + [] == [t.Patterns()];
  }

  /** The first position from `i` on that holds `c`. */
  lemma FirstClose(s: string, i: nat, c: char) returns (j: nat)
    requires i <= |s| && c in s[i..]
    ensures i <= j < |s| && s[j] == c && c !in s[i..j]
    decreases |s| - i
  {
    if s[i] == c {
      j := i;
    } else {
      assert s[i..] == [s[i]] + s[i + 1..];
      j := FirstClose(s, i + 1, c);
      assert s[i..j] == [s[i]] + s[i + 1..j];
    }
  }

  /** An empty term followed by a text with its closing character, first at `i`, swallows its own closing
      character: what is read first is a term that begins with it and runs to the next one. */
  lemma EmptyTermRunsOn(t: Term, rest: string, i: nat)
    requires t.text == "" && i < |rest| && rest[i] == t.Close() && t.Close() !in rest[..i]
    ensures var s := Start(INITIAL, t.Print() + rest);
            var u := t.(text := [t.Close()] + rest[..i]);
            && t.Print() + rest == u.Print() + rest[i + 1..]
            && Scan(s) == Scan(AfterTerm(s, u))
  {
    hide Scan, Term.Patterns;
    var u := t.(text := [t.Close()] + rest[..i]);
    assert u.text[1..] == rest[..i];
    assert rest == rest[..i] + [rest[i]] + rest[i + 1..];
    assert t.Print() + rest == u.Print() + rest[i + 1..];
    var s := Start(INITIAL, t.Print() + rest);
    assert s.arg[s.pos..] == u.Print() + rest[i + 1..];
    ScanTerm(s, u, rest[i + 1..]);
  }

  /** An instance, with a tag. */
  lemma EmptyTagRunsOn()
    ensures ParseSpec("[][a]") == [[TagPattern("][a")]]
  {
    hide ParseSpec;
    var u := Term(false, true, "][a");
    assert u.Print() == "[][a]" && ToLower("][a") == "][a";
    TermReadsBackIff(u);
  }

  lemma ScanEnd(s: State)
    requires s.Ordered() && s.pos >= |s.arg|
    ensures Scan(s) == s
  {
  }
}
