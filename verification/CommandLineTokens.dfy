/** Splitting command-line arguments into option and positional tokens. */
module CommandLineTokens {
  import opened Basics

  datatype TokenType = Positional | ShortOpt | LongOpt

  datatype Token = Token(kind: TokenType, data: string)

  const SEPARATORS := " \t=:"

  function FindSeparator(s: string): (r: Option<nat>)
    ensures r.None? ==> forall i | 0 <= i < |s| :: s[i] !in SEPARATORS
    ensures r.Some? ==> r.value < |s| && s[r.value] in SEPARATORS
                        && forall i | 0 <= i < r.value :: s[i] !in SEPARATORS
  {
    if s == "" then None
    else if s[0] in SEPARATORS then Some(0)
    else match FindSeparator(s[1..])
         case None => None
         case Some(i) => Some(i + 1)
  }

  /** The first token of an argument, and what remains of it. */
  function NextToken(arg: string): (r: (Token, string))
    requires arg != ""
    ensures |r.1| < |arg|
  {
    if arg[0] != '-' then (Token(Positional, arg), "")
    else
      var isLong := |arg| > 1 && arg[1] == '-';
      var data := if isLong then arg[2..] else arg[1..];
      var splits := !isLong && |data| > 1 && data[1] !in SEPARATORS;
      var first := if splits then data[..1] else data;
      var rest := if splits then "-" + data[1..] else "";
      var kind := if isLong then LongOpt else ShortOpt;
      match FindSeparator(first)
      case None => (Token(kind, first), rest)
      case Some(pos) => (Token(kind, first[..pos]), first[pos + 1..])
  }

  function Tokens(arg: string): seq<Token>
    decreases |arg|
  {
    if arg == "" then [] else [NextToken(arg).0] + Tokens(NextToken(arg).1)
  }

  class Parser {
    var tokens: seq<Token>

    constructor ()
      ensures tokens == []
    {
      tokens := [];
    }

    method ParseIntoTokens(argument: string)
      modifies this
      ensures tokens == old(tokens) + Tokens(argument)
    {
      hide NextToken;
      var arg := argument;
      while arg != ""
        invariant old(tokens) + Tokens(argument) == tokens + Tokens(arg)
        decreases |arg|
      {
        ghost var before := tokens;
        var token, rest := CutToken(arg);
        Regroup(before, [token], Tokens(rest));
        tokens := tokens + [token];
        arg := rest;
      }
      assert tokens + [] == tokens;
    }

    /** One iteration: the next token and what is left of the argument. */
    method CutToken(argument: string) returns (token: Token, arg: string)
      requires argument != ""
      ensures (token, arg) == NextToken(argument)
    {
      token := Token(Positional, argument);
      arg := "";
      if token.data[0] == '-' {
        if |token.data| > 1 && token.data[1] == '-' {
          token := Token(LongOpt, token.data[2..]);
        } else {
          token := Token(ShortOpt, token.data[1..]);
          if |token.data| > 1 && token.data[1] !in SEPARATORS {
            arg := "-" + token.data[1..];
            token := token.(data := token.data[..1]);
          }
        }
      }
      if token.kind != Positional {
        var pos := FindSeparator(token.data);
        if pos.Some? {
          arg := token.data[pos.value + 1..];
          token := token.(data := token.data[..pos.value]);
        }
      }
    }

    /** All arguments after the program name, up to a double dash. */
    method ParseArguments(argv: seq<string>)
      modifies this
      ensures tokens == old(tokens) + ArgumentTokens(argv, 1)
    {
      hide Tokens;
      var i := 1;
      while i < |argv| && argv[i] != "--"
        invariant 1 <= i
        invariant old(tokens) + ArgumentTokens(argv, 1) == tokens + ArgumentTokens(argv, i)
        decreases |argv| - i
      {
        Regroup(tokens, Tokens(argv[i]), ArgumentTokens(argv, i + 1));
        ParseIntoTokens(argv[i]);
        i := i + 1;
      }
      assert tokens + [] == tokens;
    }
  }

  function ArgumentTokens(argv: seq<string>, i: nat): seq<Token>
    decreases |argv| - i
  {
    if i >= |argv| || argv[i] == "--" then [] else Tokens(argv[i]) + ArgumentTokens(argv, i + 1)
  }

  // ---------- clusters of short options ----------

  /** The tokens of `-a -b -c` for the letters `abc`. */
  function ShortOptions(letters: string): (t: seq<Token>)
    ensures |t| == |letters| && forall i | 0 <= i < |t| :: t[i] == Token(ShortOpt, [letters[i]])
  {
    seq(|letters|, i requires 0 <= i < |letters| => Token(ShortOpt, [letters[i]]))
  }

  predicate Plain(c: char) {
    c !in SEPARATORS && c != '-'
  }

  predicate AllPlain(s: string) {
    forall i | 0 <= i < |s| :: Plain(s[i])
  }

  lemma SingleOption(c: char)
    requires Plain(c)
    ensures Tokens("-" + [c]) == [Token(ShortOpt, [c])]
  {
    var arg := "-" + [c];
    assert arg[1..] == [c];
    assert NextToken(arg) == (Token(ShortOpt, [c]), "");
  }

  /** What follows a cluster: nothing, or a separator and a value. */
  predicate Tail(s: string) {
    s == "" || s[0] in SEPARATORS
  }

  lemma NextInCluster(letters: string, tail: string)
    requires letters != "" && AllPlain(letters) && Tail(tail)
    ensures NextToken("-" + letters + tail)
            == (Token(ShortOpt, [letters[0]]),
                if |letters| > 1 then "-" + letters[1..] + tail else if tail == "" then "" else tail[1..])
  {
    var arg := "-" + letters + tail;
    var data := arg[1..];
    assert data == letters + tail;
    assert arg[1] == letters[0];
    if |letters| > 1 {
      assert data[1] == letters[1] && Plain(letters[1]);
      assert data[..1] == [letters[0]] && data[1..] == letters[1..] + tail;
      assert "-" + data[1..] == "-" + letters[1..] + tail;
    } else if tail != "" {
      assert data[1] == tail[0] && data[0] == letters[0];
      assert FindSeparator(data) == Some(1);
      assert data[..1] == [letters[0]] && data[2..] == tail[1..];
    } else {
      assert data == [letters[0]];
    }
  }

  /** A cluster gives one short option a letter; a value after a separator is tokenised as an
      argument of its own. */
  lemma {:induction false} ClusterTokens(letters: string, tail: string)
    requires letters != "" && AllPlain(letters) && Tail(tail)
    ensures Tokens("-" + letters + tail)
            == ShortOptions(letters) + Tokens(if tail == "" then "" else tail[1..])
    decreases |letters|
  {
    hide Tokens, NextToken, Plain, ShortOptions;
    NextInCluster(letters, tail);
    var rest := Tokens(if tail == "" then "" else tail[1..]);
    TokensStep("-" + letters + tail);
    if |letters| > 1 {
      ClusterTokens(letters[1..], tail);
      Regroup([Token(ShortOpt, [letters[0]])], ShortOptions(letters[1..]), rest);
    }
    OptionsStep(letters);
  }

  lemma OptionsStep(letters: string)
    requires letters != ""
    ensures ShortOptions(letters) == [Token(ShortOpt, [letters[0]])] + ShortOptions(letters[1..])
    ensures |letters| == 1 ==> ShortOptions(letters) == [Token(ShortOpt, [letters[0]])]
  {
  }

  lemma TokensStep(arg: string)
    requires arg != ""
    ensures Tokens(arg) == [NextToken(arg).0] + Tokens(NextToken(arg).1)
    ensures Tokens("") == []
  {
  }

  /** `-abc=v` reads as `-a -b -c v` when `v` is positional. */
  lemma {:induction false} ClusterWithValue(letters: string, separator: char, value: string)
    requires letters != "" && AllPlain(letters) && separator in SEPARATORS
    requires value != "" && value[0] != '-'
    ensures Tokens("-" + letters + ([separator] + value)) == ShortOptions(letters) + [Token(Positional, value)]
  {
    ClusterTokens(letters, [separator] + value);
    assert ([separator] + value)[1..] == value;
    assert Tokens(value) == [Token(Positional, value)] + Tokens("");
  }

  // ---------- long options and positional arguments ----------

  lemma SeparatorAfter(name: string, tail: string)
    requires (forall i | 0 <= i < |name| :: name[i] !in SEPARATORS) && Tail(tail)
    ensures FindSeparator(name + tail) == if tail == "" then None else Some(|name|)
  {
    var data := name + tail;
    assert forall i | 0 <= i < |name| :: data[i] == name[i];
    if tail != "" {
      assert data[|name|] == tail[0];
    }
    hide FindSeparator;
  }

  lemma NextLong(arg: string, data: string)
    requires arg == "--" + data
    ensures NextToken(arg) == match FindSeparator(data)
                              case None => (Token(LongOpt, data), "")
                              case Some(pos) => (Token(LongOpt, data[..pos]), data[pos + 1..])
  {
    hide FindSeparator;
    assert arg[0] == '-' && arg[1] == '-' && arg[2..] == data;
  }

  /** Two dashes begin a long option with all of the name; what follows a separator is tokenised on its own. */
  lemma LongOption(name: string, tail: string)
    requires (forall i | 0 <= i < |name| :: name[i] !in SEPARATORS) && Tail(tail)
    ensures Tokens("--" + name + tail)
            == [Token(LongOpt, name)] + Tokens(if tail == "" then "" else tail[1..])
  {
    hide Tokens, NextToken, FindSeparator;
    var data := name + tail;
    assert "--" + name + tail == "--" + data;
    TokensStep("--" + data);
    NextLong("--" + data, data);
    SeparatorAfter(name, tail);
    if tail == "" {
      assert data == name;
    } else {
      assert data[..|name|] == name && data[|name| + 1..] == tail[1..];
    }
  }

  lemma PositionalArgument(arg: string)
    requires arg != "" && arg[0] != '-'
    ensures Tokens(arg) == [Token(Positional, arg)]
  {
    hide Tokens;
    TokensStep(arg);
  }

  /** `--name=v` reads as `--name v` when `v` is positional; so with a blank, a tab or a colon. */
  lemma LongOptionWithValue(name: string, separator: char, value: string)
    requires forall i | 0 <= i < |name| :: name[i] != ' ' && name[i] != '\t' && name[i] != '=' && name[i] != ':'
    requires separator == ' ' || separator == '\t' || separator == '=' || separator == ':'
    requires value != "" && value[0] != '-'
    ensures Tokens("--" + name + ([separator] + value)) == [Token(LongOpt, name), Token(Positional, value)]
  {
    hide Tokens;
    LongOption(name, [separator] + value);
    assert ([separator] + value)[1..] == value;
    PositionalArgument(value);
  }

  /** The tokens of the arguments `args`, in order. */
  function AllTokens(args: seq<string>): seq<Token> {
    if args == [] then [] else Tokens(args[0]) + AllTokens(args[1..])
  }

  /** The program name is passed over, and so is everything from a double dash on. */
  lemma {:induction false} ArgumentsUpToDashes(argv: seq<string>, i: nat, n: nat)
    requires i <= n <= |argv| && (n < |argv| ==> argv[n] == "--")
    requires forall j | i <= j < n :: argv[j] != "--"
    ensures ArgumentTokens(argv, i) == AllTokens(argv[i..n])
    decreases n - i
  {
    hide Tokens;
    if i < n {
      ArgumentsUpToDashes(argv, i + 1, n);
      assert argv[i..n][1..] == argv[i + 1..n];
    }
  }

  // ---------- where the cluster law stops ----------

  lemma {:induction false} OptionsHoldNoSeparator(arg: string)
    ensures forall t | t in Tokens(arg) && t.kind != Positional ::
              forall i | 0 <= i < |t.data| :: t.data[i] !in SEPARATORS
    decreases |arg|
  {
    if arg != "" {
      OptionsHoldNoSeparator(NextToken(arg).1);
    }
  }

  /** A dash among letters turns the rest of the cluster into a long option. */
  lemma {:induction false} DashGivesLongOption(letters: string)
    requires '-' in letters && forall i | 0 <= i < |letters| :: letters[i] !in SEPARATORS
    ensures exists t :: t in Tokens("-" + letters) && t.kind == LongOpt
    decreases |letters|
  {
    var arg := "-" + letters;
    assert arg[1..] == letters;
    var (token, rest) := NextToken(arg);
    assert Tokens(arg)[0] == token;
    if letters[0] == '-' {
      assert arg[1] == '-' && token.kind == LongOpt;
      assert token in Tokens(arg);
    } else {
      assert letters == [letters[0]] + letters[1..];
      assert '-' in letters[1..];
      assert letters[..1] == [letters[0]];
      assert FindSeparator(letters[..1]) == None;
      assert rest == "-" + letters[1..];
      DashGivesLongOption(letters[1..]);
      var t :| t in Tokens(rest) && t.kind == LongOpt;
      assert t in Tokens(arg);
    }
  }

  lemma {:induction false} SeparatorIsLost(letters: string, i: nat)
    requires i < |letters| && letters[i] in SEPARATORS
    ensures Tokens("-" + letters) != ShortOptions(letters)
  {
    hide Tokens;
    OptionsHoldNoSeparator("-" + letters);
    assert Token(ShortOpt, [letters[i]]).data[0] in SEPARATORS;
    assert Token(ShortOpt, [letters[i]]) !in Tokens("-" + letters);
    assert ShortOptions(letters)[i] in ShortOptions(letters);
  }

  /** A cluster means its letters one by one exactly if none is a separator or a dash. */
  lemma {:induction false} ClusterIff(letters: string)
    requires letters != ""
    ensures Tokens("-" + letters) == ShortOptions(letters) <==> AllPlain(letters)
  {
    hide Tokens;
    if AllPlain(letters) {
      assert "-" + letters + "" == "-" + letters;
      ClusterTokens(letters, "");
      TokensStep("-");
      assert ShortOptions(letters) + [] == ShortOptions(letters);
    } else if i :| 0 <= i < |letters| && letters[i] in SEPARATORS {
      SeparatorIsLost(letters, i);
    } else {
      var i :| 0 <= i < |letters| && !Plain(letters[i]);
      assert letters[i] == '-';
      DashGivesLongOption(letters);
      var t :| t in Tokens("-" + letters) && t.kind == LongOpt;
      assert t !in ShortOptions(letters);
    }
  }
}
