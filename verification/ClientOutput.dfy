/** How the client prints a received message part, and how its output reads back. */
module ClientOutput {
  import opened Basics

  type byte = x: int | 0 <= x < 256

  datatype Format = NoEcho | Raw | Ascii | Quoted | Msgpack

  const NEWLINE: byte := 10
  const RETURN: byte := 13
  const QUOTE: byte := 34
  const DOT: byte := 46
  const BACKSLASH: byte := 92
  const LOWER_N: byte := 110
  const LOWER_R: byte := 114
  const LOWER_X: byte := 120

  /** `isprint` in the C locale. */
  predicate IsPrint(c: byte) {
    0x20 <= c <= 0x7e
  }

  // ---------- quoted ----------

  function HexDigit(n: nat): byte
    requires n < 16
  {
    if n < 10 then 48 + n else 97 + (n - 10)
  }

  function Escaped(c: byte): seq<byte> {
    if c == NEWLINE then [BACKSLASH, LOWER_N]
    else if c == RETURN then [BACKSLASH, LOWER_R]
    else if c == BACKSLASH || c == QUOTE then [BACKSLASH, c]
    else if IsPrint(c) then [c]
    else [BACKSLASH, LOWER_X, HexDigit(c / 16), HexDigit(c % 16)]
  }

  function Body(buf: seq<byte>): seq<byte> {
    if buf == [] then [] else Escaped(buf[0]) + Body(buf[1..])
  }

  function QuotedRecord(buf: seq<byte>): seq<byte> {
    [QUOTE] + Body(buf) + [QUOTE, NEWLINE]
  }

  function HexValue(c: byte): Option<nat> {
    if 48 <= c < 58 then Some(c - 48) else if 97 <= c < 103 then Some(c - 97 + 10) else None
  }

  /** Reads one character of a quoted body: its value and how many bytes it takes. */
  function ReadChar(s: seq<byte>): Option<(byte, nat)> {
    if s == [] || s[0] == QUOTE then None
    else if s[0] != BACKSLASH then Some((s[0], 1))
    else if |s| < 2 then None
    else if s[1] == LOWER_N then Some((NEWLINE, 2))
    else if s[1] == LOWER_R then Some((RETURN, 2))
    else if s[1] == BACKSLASH || s[1] == QUOTE then Some((s[1], 2))
    else if s[1] == LOWER_X && |s| >= 4 && HexValue(s[2]).Some? && HexValue(s[3]).Some? then
      Some((16 * HexValue(s[2]).value + HexValue(s[3]).value, 4))
    else None
  }

  /** Reads a body up to the closing quote; returns it and what follows the quote. */
  function ReadBody(s: seq<byte>): Option<(seq<byte>, seq<byte>)>
    decreases |s|
  {
    if s != [] && s[0] == QUOTE then Some(([], s[1..]))
    else match ReadChar(s)
         case None => None
         case Some((c, n)) =>
           if n > |s| || n == 0 then None
           else match ReadBody(s[n..])
                case None => None
                case Some((rest, after)) => Some(([c] + rest, after))
  }

  /** Reads one record: an opening quote, a body, the closing quote and a newline. */
  function ReadQuoted(s: seq<byte>): (r: Option<(seq<byte>, seq<byte>)>)
    ensures r.Some? ==> |r.value.1| < |s|
  {
    if s == [] || s[0] != QUOTE then None
    else match ReadBody(s[1..])
         case None => None
         case Some((buf, after)) =>
           BodyShrinks(s[1..]);
           if after == [] || after[0] != NEWLINE then None else Some((buf, after[1..]))
  }

  lemma {:induction false} BodyShrinks(s: seq<byte>)
    ensures ReadBody(s).Some? ==> |ReadBody(s).value.1| < |s|
    decreases |s|
  {
    if s != [] && s[0] != QUOTE && ReadChar(s).Some? {
      var n := ReadChar(s).value.1;
      if 0 < n <= |s| {
        BodyShrinks(s[n..]);
      }
    }
  }

  function ReadQuotedAll(s: seq<byte>): Option<seq<seq<byte>>>
    decreases |s|
  {
    if s == [] then Some([])
    else match ReadQuoted(s)
         case None => None
         case Some((buf, after)) =>
           match ReadQuotedAll(after)
           case None => None
           case Some(rest) => Some([buf] + rest)
  }

  function QuotedAll(parts: seq<seq<byte>>): seq<byte> {
    if parts == [] then [] else QuotedRecord(parts[0]) + QuotedAll(parts[1..])
  }

  lemma HexRoundTrip(n: nat)
    requires n < 16
    ensures HexValue(HexDigit(n)) == Some(n) && IsPrint(HexDigit(n)) && HexDigit(n) != QUOTE
  {
  }

  lemma ReadEscaped(c: byte, rest: seq<byte>)
    ensures ReadChar(Escaped(c) + rest) == Some((c, |Escaped(c)|))
    ensures Escaped(c) + rest != [] && (Escaped(c) + rest)[0] != QUOTE
  {
    HexRoundTrip(c / 16);
    HexRoundTrip(c % 16);
  }

  lemma {:induction false} ReadBodyBack(buf: seq<byte>, after: seq<byte>)
    ensures ReadBody(Body(buf) + [QUOTE] + after) == Some((buf, after))
    decreases |buf|
  {
    var s := Body(buf) + [QUOTE] + after;
    if buf == [] {
      assert s == [QUOTE] + after;
    } else {
      var rest := Body(buf[1..]) + [QUOTE] + after;
      assert s == Escaped(buf[0]) + rest;
      ReadEscaped(buf[0], rest);
      assert s[|Escaped(buf[0])|..] == rest;
      ReadBodyBack(buf[1..], after);
      assert [buf[0]] + buf[1..] == buf;
    }
  }

  lemma ReadQuotedBack(buf: seq<byte>, after: seq<byte>)
    ensures ReadQuoted(QuotedRecord(buf) + after) == Some((buf, after))
  {
    var s := QuotedRecord(buf) + after;
    assert s[1..] == Body(buf) + [QUOTE] + ([NEWLINE] + after);
    ReadBodyBack(buf, [NEWLINE] + after);
  }

  /** Any sequence of quoted records reads back as the parts that were printed. */
  lemma {:induction false} QuotedReadsBack(parts: seq<seq<byte>>)
    ensures ReadQuotedAll(QuotedAll(parts)) == Some(parts)
    decreases |parts|
  {
    if parts != [] {
      ReadQuotedBack(parts[0], QuotedAll(parts[1..]));
      QuotedReadsBack(parts[1..]);
      assert QuotedAll(parts) == QuotedRecord(parts[0]) + QuotedAll(parts[1..]) != [];
      assert [parts[0]] + parts[1..] == parts;
    }
  }

  lemma QuotedUnique(a: seq<seq<byte>>, b: seq<seq<byte>>)
    requires QuotedAll(a) == QuotedAll(b)
    ensures a == b
  {
    QuotedReadsBack(a);
    QuotedReadsBack(b);
  }

  /** Every quote in `s` follows a backslash that is not itself escaped. */
  predicate QuotesEscaped(s: seq<byte>)
    decreases |s|
  {
    if s == [] then true
    else if s[0] == BACKSLASH then |s| > 1 && QuotesEscaped(s[2..])
    else s[0] != QUOTE && QuotesEscaped(s[1..])
  }

  lemma EscapedQuotes(c: byte, rest: seq<byte>)
    requires QuotesEscaped(rest)
    ensures QuotesEscaped(Escaped(c) + rest)
  {
    HexRoundTrip(c / 16);
    HexRoundTrip(c % 16);
    var s := Escaped(c) + rest;
    if |Escaped(c)| == 4 {
      assert s[2..] == [HexDigit(c / 16), HexDigit(c % 16)] + rest;
      assert s[2..][1..] == [HexDigit(c % 16)] + rest;
      assert s[2..][1..][1..] == rest;
    } else if |Escaped(c)| == 2 {
      assert s[2..] == rest;
    } else {
      assert s[1..] == rest;
    }
  }

  /** How a byte stands in a body: a newline, a return, a backslash and a quote behind a backslash, any other
      printable one as itself, and the rest as two hexadecimal digits in lower case. */
  predicate StandsFor(s: seq<byte>, c: byte) {
    if c == 10 then s == [92, 110]
    else if c == 13 then s == [92, 114]
    else if c == 34 || c == 92 then s == [92, c]
    else if 32 <= c <= 126 then s == [c]
    else
      && |s| == 4 && s[0] == 92 && s[1] == 120
      && (forall i | 2 <= i < 4 :: 48 <= s[i] <= 57 || 97 <= s[i] <= 102)
      && c == 16 * LowerHex(s[2]) + LowerHex(s[3])
  }

  function LowerHex(d: byte): int {
    if d <= 57 then d - 48 else d - 87
  }

  /** A body is cut into the forms of its bytes. */
  ghost predicate Spelled(body: seq<byte>, buf: seq<byte>)
    decreases |buf|
  {
    if buf == [] then body == []
    else exists n: nat :: n <= |body| && StandsFor(body[..n], buf[0]) && Spelled(body[n..], buf[1..])
  }

  lemma EscapedStands(c: byte)
    ensures StandsFor(Escaped(c), c)
  {
    if !IsPrint(c) && c != NEWLINE && c != RETURN {
      HexRoundTrip(c / 16);
      HexRoundTrip(c % 16);
    }
  }

  lemma {:induction false} BodySpelled(buf: seq<byte>)
    ensures Spelled(Body(buf), buf)
    decreases |buf|
  {
    hide StandsFor, Escaped;
    if buf != [] {
      var form, rest := Escaped(buf[0]), Body(buf[1..]);
      EscapedStands(buf[0]);
      BodySpelled(buf[1..]);
      assert Body(buf) == form + rest;
      assert (form + rest)[..|form|] == form && (form + rest)[|form|..] == rest;
    }
  }

  /** So a part without quotes, backslashes and control characters is printed as it is, in quotes. */
  lemma {:induction false} PlainStays(buf: seq<byte>)
    requires forall i | 0 <= i < |buf| :: 32 <= buf[i] <= 126 && buf[i] != 34 && buf[i] != 92
    ensures Body(buf) == buf && QuotedRecord(buf) == [34] + buf + [34, 10]
    decreases |buf|
  {
    if buf != [] {
      PlainStays(buf[1..]);
    }
  }

  /** A body is printable ASCII, so a record is one line, and no quote in it ends it early. */
  lemma {:induction false} BodyIsPrintable(buf: seq<byte>)
    ensures forall i | 0 <= i < |Body(buf)| :: IsPrint(Body(buf)[i])
    ensures QuotesEscaped(Body(buf))
    decreases |buf|
  {
    if buf != [] {
      BodyIsPrintable(buf[1..]);
      HexRoundTrip(buf[0] / 16);
      HexRoundTrip(buf[0] % 16);
      EscapedQuotes(buf[0], Body(buf[1..]));
    }
  }

  lemma OneLinePerPart(buf: seq<byte>)
    ensures var r := QuotedRecord(buf);
            r[|r| - 1] == NEWLINE && forall i | 0 <= i < |r| - 1 :: IsPrint(r[i])
  {
    BodyIsPrintable(buf);
  }

  // ---------- MessagePack bin family ----------

  const BIN8: byte := 0xc4
  const BIN16: byte := 0xc5
  const BIN32: byte := 0xc6
  const INT_LIMIT := 0x8000_0000

  /** The low eight bits of `n >> shift`, as `fputc` writes them. */
  function ShiftedByte(n: nat, divisor: nat): byte
    requires divisor > 0
  {
    (n / divisor) % 256
  }

  function Header(n: nat): seq<byte> {
    if n < 256 then [BIN8, ShiftedByte(n, 1)]
    else if n < 65536 then [BIN16, ShiftedByte(n, 256), ShiftedByte(n, 1)]
    else [BIN32, ShiftedByte(n, 0x100_0000), ShiftedByte(n, 0x1_0000), ShiftedByte(n, 256), ShiftedByte(n, 1)]
  }

  function BinRecord(buf: seq<byte>): seq<byte> {
    Header(|buf|) + buf
  }

  function BigEndian(s: seq<byte>): nat {
    if s == [] then 0 else BigEndian(s[..|s| - 1]) * 256 + s[|s| - 1]
  }

  /** How many length bytes follow a type byte of the bin family. */
  function LengthBytes(kind: byte): nat {
    if kind == BIN8 then 1 else if kind == BIN16 then 2 else if kind == BIN32 then 4 else 0
  }

  function ReadBin(s: seq<byte>): (r: Option<(seq<byte>, seq<byte>)>)
    ensures r.Some? ==> |r.value.1| < |s|
  {
    if s == [] || LengthBytes(s[0]) == 0 then None
    else
      var k := 1 + LengthBytes(s[0]);
      if |s| < k then None
      else
        var n := BigEndian(s[1..k]);
        if |s| < k + n then None else Some((s[k..k + n], s[k + n..]))
  }

  function ReadBinAll(s: seq<byte>): Option<seq<seq<byte>>>
    decreases |s|
  {
    if s == [] then Some([])
    else match ReadBin(s)
         case None => None
         case Some((buf, after)) =>
           match ReadBinAll(after)
           case None => None
           case Some(rest) => Some([buf] + rest)
  }

  function BinAll(parts: seq<seq<byte>>): seq<byte> {
    if parts == [] then [] else BinRecord(parts[0]) + BinAll(parts[1..])
  }

  lemma BigEndian2(a: byte, b: byte)
    ensures BigEndian([a, b]) == a * 256 + b
  {
    assert [a, b][..1] == [a] && [a][..0] == [];
    assert BigEndian([a]) == a;
  }

  lemma BigEndian4(a: byte, b: byte, c: byte, d: byte)
    ensures BigEndian([a, b, c, d]) == ((a * 256 + b) * 256 + c) * 256 + d
  {
    assert [a, b, c, d][..3] == [a, b, c] && [a, b, c][..2] == [a, b];
    BigEndian2(a, b);
  }

  lemma SplitBytes(n: nat)
    requires n < INT_LIMIT
    ensures ((n / 0x100_0000 % 256 * 256 + n / 0x1_0000 % 256) * 256 + n / 256 % 256) * 256 + n % 256 == n
  {
    var h := n / 256;
    assert n == h * 256 + n % 256;
    var g := h / 256;
    assert h == g * 256 + h % 256 && n / 0x1_0000 == g;
    var f := g / 256;
    assert g == f * 256 + g % 256 && n / 0x100_0000 == f && f < 256;
  }

  /** The length bytes rebuild the length, in the shortest header of the family that can. */
  lemma HeaderRebuildsLength(n: nat)
    requires n < INT_LIMIT
    ensures var h := Header(n);
            && h[0] == (if n < 256 then 0xc4 else if n < 65536 then 0xc5 else 0xc6)
            && LengthBytes(h[0]) == |h| - 1 && BigEndian(h[1..]) == n
            && (|h| == 2 <==> n < 256) && (|h| <= 3 <==> n < 65536)
  {
    var h := Header(n);
    if n < 256 {
      assert h[1..] == [n];
    } else if n < 65536 {
      assert h[1..] == [n / 256, n % 256];
      BigEndian2(n / 256, n % 256);
    } else {
      assert h[1..] == [ShiftedByte(n, 0x100_0000), ShiftedByte(n, 0x1_0000), ShiftedByte(n, 256), ShiftedByte(n, 1)];
      BigEndian4(ShiftedByte(n, 0x100_0000), ShiftedByte(n, 0x1_0000), ShiftedByte(n, 256), ShiftedByte(n, 1));
      SplitBytes(n);
    }
  }

  lemma ReadBinBack(buf: seq<byte>, after: seq<byte>)
    requires |buf| < INT_LIMIT
    ensures ReadBin(BinRecord(buf) + after) == Some((buf, after))
  {
    var s, h := BinRecord(buf) + after, Header(|buf|);
    HeaderRebuildsLength(|buf|);
    assert s[1..|h|] == h[1..];
    assert s[|h|..|h| + |buf|] == buf && s[|h| + |buf|..] == after;
  }

  /** Any sequence of bin records reads back as the parts that were printed. */
  lemma {:induction false} BinReadsBack(parts: seq<seq<byte>>)
    requires forall p | p in parts :: |p| < INT_LIMIT
    ensures ReadBinAll(BinAll(parts)) == Some(parts)
    decreases |parts|
  {
    if parts != [] {
      assert parts[0] in parts;
      ReadBinBack(parts[0], BinAll(parts[1..]));
      BinReadsBack(parts[1..]);
      assert BinAll(parts) == BinRecord(parts[0]) + BinAll(parts[1..]) != [];
      assert [parts[0]] + parts[1..] == parts;
    }
  }

  lemma BinUnique(a: seq<seq<byte>>, b: seq<seq<byte>>)
    requires forall p | p in a :: |p| < INT_LIMIT
    requires forall p | p in b :: |p| < INT_LIMIT
    requires BinAll(a) == BinAll(b)
    ensures a == b
  {
    BinReadsBack(a);
    BinReadsBack(b);
  }

  // ---------- printing ----------

  function AsciiOf(buf: seq<byte>): (r: seq<byte>)
    ensures |r| == |buf|
  {
    seq(|buf|, i requires 0 <= i < |buf| => if IsPrint(buf[i]) then buf[i] else DOT)
  }

  function Printed(buf: seq<byte>, format: Format): seq<byte> {
    match format
    case NoEcho => []
    case Raw => buf
    case Ascii => AsciiOf(buf) + [NEWLINE]
    case Quoted => QuotedRecord(buf)
    case Msgpack => BinRecord(buf)
  }

  class Stdout {
    var written: seq<byte>

    constructor ()
      ensures written == []
    {
      written := [];
    }

    method Fputc(c: int)
      modifies this
      ensures written == old(written) + [c % 256]
    {
      written := written + [c % 256];
    }

    method Fwrite(buf: seq<byte>)
      modifies this
      ensures written == old(written) + buf
    {
      written := written + buf;
    }
  }

  method PrintMessagePart(message: seq<byte>, format: Format, out: Stdout)
    requires |message| < INT_LIMIT
    modifies out
    ensures out.written == old(out.written) + Printed(message, format)
    ensures format == NoEcho ==> out.written == old(out.written)
    ensures format == Raw ==> out.written == old(out.written) + message
    ensures format == Ascii ==>
              && |out.written| == |old(out.written)| + |message| + 1
              && (forall i | 0 <= i < |message| ::
                    out.written[|old(out.written)| + i] == if 32 <= message[i] <= 126 then message[i] else 46)
              && out.written[|old(out.written)| + |message|] == 10
  {
    match format {
      case NoEcho => return;
      case Raw => out.Fwrite(message);
      case Ascii => PrintAscii(message, out);
      case Quoted => PrintQuoted(message, out);
      case Msgpack => PrintMsgpack(message, out);
    }
  }

  method PrintAscii(message: seq<byte>, out: Stdout)
    modifies out
    ensures out.written == old(out.written) + AsciiOf(message) + [NEWLINE]
  {
    var buf, buflen := message, |message|;
    while buflen > 0
      invariant buflen == |buf| <= |message| && buf == message[|message| - buflen..]
      invariant out.written == old(out.written) + AsciiOf(message)[..|message| - buflen]
      decreases buflen
    {
      out.Fputc(if IsPrint(buf[0]) then buf[0] else DOT);
      assert buf[0] == message[|message| - buflen];
      buflen, buf := buflen - 1, buf[1..];
    }
    out.Fputc(NEWLINE);
  }

  method PrintQuoted(message: seq<byte>, out: Stdout)
    modifies out
    ensures out.written == old(out.written) + QuotedRecord(message)
  {
    out.Fputc(QUOTE);
    PrintBody(message, out);
    out.Fwrite([QUOTE, NEWLINE]);
    Regroup(old(out.written), [QUOTE], Body(message));
    Regroup(old(out.written), [QUOTE] + Body(message), [QUOTE, NEWLINE]);
  }

  method PrintBody(message: seq<byte>, out: Stdout)
    modifies out
    ensures out.written == old(out.written) + Body(message)
  {
    var buf, buflen := message, |message|;
    while buflen > 0
      invariant buflen == |buf|
      invariant old(out.written) + Body(message) == out.written + Body(buf)
      decreases buflen
    {
      Regroup(out.written, Escaped(buf[0]), Body(buf[1..]));
      PrintEscaped(buf[0], out);
      buflen, buf := buflen - 1, buf[1..];
    }
  }

  method PrintEscaped(c: byte, out: Stdout)
    modifies out
    ensures out.written == old(out.written) + Escaped(c)
  {
    if c == NEWLINE {
      out.Fwrite([BACKSLASH, LOWER_N]);
    } else if c == RETURN {
      out.Fwrite([BACKSLASH, LOWER_R]);
    } else if c == BACKSLASH || c == QUOTE {
      out.Fwrite([BACKSLASH, c]);
    } else if IsPrint(c) {
      out.Fputc(c);
    } else {
      out.Fwrite([BACKSLASH, LOWER_X, HexDigit(c / 16), HexDigit(c % 16)]);
    }
  }

  /** The bytes that are left of the numbers printed for a header. */
  lemma HeaderBytes(n: nat)
    requires n < INT_LIMIT
    ensures n < 256 ==> Header(n) == [BIN8, n % 256]
    ensures 256 <= n < 65536 ==> Header(n) == [BIN16, n / 256 % 256, n % 256 % 256]
    ensures 65536 <= n ==>
              Header(n) == [BIN32, n / 0x100_0000 % 256, n / 0x1_0000 % 256 % 256, n / 256 % 256 % 256, n % 256 % 256]
  {
    assert n / 1 == n;
    assert forall b: byte :: b % 256 == b;
  }

  method PrintMsgpack(message: seq<byte>, out: Stdout)
    requires |message| < INT_LIMIT
    modifies out
    ensures out.written == old(out.written) + BinRecord(message)
  {
    hide Header;
    var buflen := |message|;
    HeaderBytes(buflen);
    if buflen < 256 {
      out.Fputc(BIN8);
      out.Fputc(buflen);
    } else if buflen < 65536 {
      out.Fputc(BIN16);
      out.Fputc(buflen / 256);
      out.Fputc(buflen % 256);
    } else {
      out.Fputc(BIN32);
      out.Fputc(buflen / 0x100_0000);
      out.Fputc(buflen / 0x1_0000 % 256);
      out.Fputc(buflen / 256 % 256);
      out.Fputc(buflen % 256);
    }
    assert out.written == old(out.written) + Header(buflen);
    out.Fwrite(message);
  }
}
