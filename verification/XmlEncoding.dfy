/** The three-character escaping of the XML writer. */
module XmlEncoding {
  import opened Basics

  predicate Special(c: char) {
    c == '<' || c == '&' || c == '"'
  }

  function Entity(c: char): string {
    if c == '<' then "&lt;" else if c == '&' then "&amp;" else if c == '"' then "&quot;" else [c]
  }

  function Encode(s: string): string {
    if s == "" then "" else Entity(s[0]) + Encode(s[1..])
  }

  /** The predefined entities of XML 1.0 (section 4.6) that are used, and every other character as itself. */
  lemma EntityIs(c: char)
    ensures Encode([c]) == if c == '<' then "&lt;" else if c == '&' then "&amp;" else if c == '"' then "&quot;" else [c]
  {
    assert [c][1..] == "" && Encode("") == "";
  }

  /** Reads the entity or plain character at the start of `s`. */
  function DecodeOne(s: string): (char, nat)
    requires s != ""
  {
    if "&lt;" <= s then ('<', 4) else if "&amp;" <= s then ('&', 5) else if "&quot;" <= s then ('"', 6)
    else (s[0], 1)
  }

  function Decode(s: string): string
    decreases |s|
  {
    if s == "" then "" else var (c, n) := DecodeOne(s); [c] + Decode(s[n..])
  }

  lemma DecodeEntity(c: char, rest: string)
    ensures DecodeOne(Entity(c) + rest) == (c, |Entity(c)|)
  {
    var s := Entity(c) + rest;
    if c == '<' {
      assert s[..4] == "&lt;";
    } else if c == '&' {
      assert s[..5] == "&amp;" && s[1] != 'l';
    } else if c == '"' {
      assert s[..6] == "&quot;" && s[1] != 'l' && s[1] != 'a';
    } else {
      assert s[0] != '&';
    }
  }

  /** Decoding the entities undoes encoding. */
  lemma {:induction false} DecodeEncode(s: string)
    ensures Decode(Encode(s)) == s
  {
    if s != "" {
      var rest := Encode(s[1..]);
      DecodeEntity(s[0], rest);
      assert (Entity(s[0]) + rest)[|Entity(s[0])|..] == rest;
      DecodeEncode(s[1..]);
      assert [s[0]] + s[1..] == s;
    }
  }

  /** Encoded text holds no raw angle bracket or quote. */
  lemma {:induction false} EncodedIsPlain(s: string)
    ensures forall i | 0 <= i < |Encode(s)| :: Encode(s)[i] != '<' && Encode(s)[i] != '"'
  {
    if s != "" {
      EncodedIsPlain(s[1..]);
    }
  }

  lemma {:induction false} EncodeConcat(a: string, b: string)
    ensures Encode(a + b) == Encode(a) + Encode(b)
  {
    if a == "" {
      assert a + b == b;
    } else {
      assert (a + b)[1..] == a[1..] + b;
      EncodeConcat(a[1..], b);
    }
  }

  lemma {:induction false} EncodePlain(s: string)
    requires forall i | 0 <= i < |s| :: !Special(s[i])
    ensures Encode(s) == s
  {
    if s != "" {
      EncodePlain(s[1..]);
    }
  }

  /** The first character to encode. */
  function FindSpecial(s: string): (r: Option<nat>)
    ensures r.None? ==> forall i | 0 <= i < |s| :: !Special(s[i])
    ensures r.Some? ==> r.value < |s| && Special(s[r.value]) && forall i | 0 <= i < r.value :: !Special(s[i])
  {
    if s == "" then None
    else if Special(s[0]) then Some(0)
    else match FindSpecial(s[1..])
         case None => None
         case Some(i) => Some(i + 1)
  }

  lemma EncodeFirst(s: string)
    requires s != ""
    ensures Encode(s) == Entity(s[0]) + Encode(s[1..])
  {
  }

  /** A cut at the first special character encodes as the plain text before it, its entity,
      and the encoded rest. */
  lemma EncodeCut(s: string, pos: nat)
    requires pos < |s| && forall i | 0 <= i < pos :: !Special(s[i])
    ensures Encode(s) == s[..pos] + Entity(s[pos]) + Encode(s[pos + 1..])
  {
    var plain, rest := s[..pos], s[pos..];
    assert s == plain + rest && rest[0] == s[pos] && rest[1..] == s[pos + 1..];
    EncodeConcat(plain, rest);
    EncodePlain(plain);
    EncodeFirst(rest);
    hide Encode, Entity;
    Regroup(plain, Entity(s[pos]), Encode(s[pos + 1..]));
  }
}
