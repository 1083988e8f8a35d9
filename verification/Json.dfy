/** A reader for the JSON bodies gateway B writes: what it writes decodes to what was encoded. */
module Json {
  import opened Basics
  import opened Responses
  import opened Exchange
  import Utf8

  datatype Read<+T> = Read(value: T, rest: string)

  function HexValue(c: char): Option<nat> {
    if '0' <= c <= '9' then Some(c as int - '0' as int)
    else if 'a' <= c <= 'f' then Some(c as int - 'a' as int + 10)
    else if 'A' <= c <= 'F' then Some(c as int - 'A' as int + 10)
    else None
  }

  function Power16(k: nat): nat {
    if k == 0 then 1 else 16 * Power16(k - 1)
  }

  function ReadHex(s: string): (r: Option<nat>)
    ensures r.Some? ==> r.value < Power16(|s|)
  {
    if s == "" then Some(0)
    else
      var high, low := ReadHex(s[..|s| - 1]), HexValue(s[|s| - 1]);
      if high.None? || low.None? then None else Some(16 * high.value + low.value)
  }

  /** The four digits after a `\u`. */
  function ReadUnit(s: string): Option<Read<nat>> {
    if |s| < 4 || ReadHex(s[..4]).None? then None else Some(Read(ReadHex(s[..4]).value, s[4..]))
  }

  /** A `\u` escape, which for a character beyond U+FFFF is a pair of surrogates. */
  function ReadUnicode(s: string): Option<Read<char>> {
    var high := ReadUnit(s);
    if high.None? then None
    else if high.value.value < 0xD800 || 0xE000 <= high.value.value < 0x1_0000 then
      Some(Read(high.value.value as char, high.value.rest))
    else if high.value.value >= 0xDC00 || |high.value.rest| < 2 || high.value.rest[..2] != "\\u" then None
    else
      var low := ReadUnit(high.value.rest[2..]);
      if low.None? || !(0xDC00 <= low.value.value < 0xE000) then None
      else
        var n := 0x1_0000 + 0x400 * (high.value.value - 0xD800) + low.value.value - 0xDC00;
        Some(Read(n as char, low.value.rest))
  }

  /** One character of a string, escaped or not. */
  function ReadChar(s: string): Option<Read<char>> {
    if s == "" || s[0] == '"' then None
    else if s[0] != '\\' then Some(Read(s[0], s[1..]))
    else if |s| < 2 then None
    else
      var rest := s[2..];
      if s[1] == '"' then Some(Read('"', rest))
      else if s[1] == '\\' then Some(Read('\\', rest))
      else if s[1] == '/' then Some(Read('/', rest))
      else if s[1] == 'n' then Some(Read('\n', rest))
      else if s[1] == 'r' then Some(Read('\r', rest))
      else if s[1] == 't' then Some(Read('\t', rest))
      else if s[1] == 'b' then Some(Read(8 as char, rest))
      else if s[1] == 'f' then Some(Read(12 as char, rest))
      else if s[1] == 'u' then ReadUnicode(rest)
      else None
  }

  lemma ReadCharShortens(s: string)
    ensures ReadChar(s).Some? ==> |ReadChar(s).value.rest| < |s|
  {
  }

  /** The characters up to the closing quote. */
  function ReadText(s: string): Option<Read<string>>
    decreases |s|
  {
    if s != "" && s[0] == '"' then Some(Read("", s[1..]))
    else
      ReadCharShortens(s);
      var c := ReadChar(s);
      if c.None? then None
      else
        var later := ReadText(c.value.rest);
        if later.None? then None else Some(Read([c.value.value] + later.value.value, later.value.rest))
  }

  lemma HexDigitRoundTrip(d: nat)
    requires d < 16
    ensures HexValue(HexDigit(d)) == Some(d)
  {
  }

  /** Digits are read back to the number they write, if it has no more of them. */
  lemma {:induction false} HexRoundTrip(n: nat, k: nat)
    requires n < Power16(k)
    ensures ReadHex(HexDigits(n, k)) == Some(n)
  {
    if k > 0 {
      var high, low := HexDigits(n / 16, k - 1), HexDigit(n % 16);
      assert n == 16 * (n / 16) + n % 16 && n / 16 < Power16(k - 1);
      HexRoundTrip(n / 16, k - 1);
      HexDigitRoundTrip(n % 16);
      assert (high + [low])[..|high|] == high;
    }
  }

  lemma FourDigits()
    ensures Power16(4) == 0x1_0000
  {
    assert Power16(2) == 0x100;
  }

  /** A written `\u` escape is read back. */
  lemma ReadWrittenUnit(unit: nat, rest: string) returns (later: string)
    requires unit < 0x1_0000
    ensures UnicodeEscape(unit) + rest == ['\\', 'u'] + later
    ensures ReadUnit(later) == Some(Read(unit, rest))
  {
    var digits := HexDigits(unit, 4);
    later := digits + rest;
    HexDigitsAreAscii(unit, 4);
    FourDigits();
    HexRoundTrip(unit, 4);
    assert later[..4] == digits && later[4..] == rest;
    ConcatAssociates(['\\', 'u'], digits, rest);
  }

  lemma ReadEscape(later: string)
    ensures ReadChar(['\\', 'u'] + later) == ReadUnicode(later)
  {
    assert (['\\', 'u'] + later)[2..] == later;
  }

  function Combined(high: nat, low: nat): char
    requires 0xD800 <= high < 0xDC00 <= low < 0xE000
  {
    (0x1_0000 + 0x400 * (high - 0xD800) + low - 0xDC00) as char
  }

  lemma ReadPair(s: string, high: nat, later: string, low: nat, rest: string)
    requires ReadUnit(s) == Some(Read(high, ['\\', 'u'] + later)) && ReadUnit(later) == Some(Read(low, rest))
    requires 0xD800 <= high < 0xDC00 <= low < 0xE000
    ensures ReadUnicode(s) == Some(Read(Combined(high, low), rest))
  {
    assert (['\\', 'u'] + later)[2..] == later;
    assert (['\\', 'u'] + later)[..2] == "\\u";
  }

  lemma ReadWrittenPair(high: nat, low: nat, rest: string)
    requires 0xD800 <= high < 0xDC00 <= low < 0xE000
    ensures ReadChar(UnicodeEscape(high) + UnicodeEscape(low) + rest) == Some(Read(Combined(high, low), rest))
  {
    ConcatAssociates(UnicodeEscape(high), UnicodeEscape(low), rest);
    var second := ReadWrittenUnit(low, rest);
    var first := ReadWrittenUnit(high, UnicodeEscape(low) + rest);
    ReadEscape(first);
    ReadPair(first, high, second, low, rest);
  }

  /** A character written as itself or as a backslash and one letter. */
  lemma ReadShort(c: char, rest: string)
    requires |EscapeChar(c)| <= 2
    ensures ReadChar(EscapeChar(c) + rest) == Some(Read(c, rest))
  {
    var k := |EscapeChar(c)|;
    assert (EscapeChar(c) + rest)[k..] == rest;
  }

  lemma ReadLong(n: nat, rest: string)
    requires n < 0xD800 || 0xE000 <= n < 0x1_0000
    ensures ReadChar(UnicodeEscape(n) + rest) == Some(Read(n as char, rest))
  {
    var later := ReadWrittenUnit(n, rest);
    ReadEscape(later);
  }

  lemma AstralIsPair(c: char)
    requires c as int >= 0x1_0000
    ensures var k := c as int - 0x1_0000;
            EscapeChar(c) == UnicodeEscape(0xD800 + k / 0x400) + UnicodeEscape(0xDC00 + k % 0x400)
  {
  }

  /** A character beyond U+FFFF is written as the two surrogates that combine to it. */
  lemma ReadAstral(c: char, rest: string)
    requires c as int >= 0x1_0000
    ensures ReadChar(EscapeChar(c) + rest) == Some(Read(c, rest))
  {
    var k := c as int - 0x1_0000;
    assert 0x400 * (k / 0x400) + k % 0x400 == k;
    ReadWrittenPair(0xD800 + k / 0x400, 0xDC00 + k % 0x400, rest);
    AstralIsPair(c);
  }

  lemma LongIsUnicode(c: char)
    requires c as int < 0x1_0000 && |EscapeChar(c)| > 2
    ensures EscapeChar(c) == UnicodeEscape(c as int)
  {
  }

  lemma ReadWrittenChar(c: char, rest: string)
    ensures ReadChar(EscapeChar(c) + rest) == Some(Read(c, rest))
  {
    if c as int >= 0x1_0000 {
      ReadAstral(c, rest);
    } else if |EscapeChar(c)| > 2 {
      LongIsUnicode(c);
      ReadLong(c as int, rest);
    } else {
      ReadShort(c, rest);
    }
  }

  lemma WrittenIsNoQuote(c: char)
    ensures EscapeChar(c) != "" && EscapeChar(c)[0] != '"'
  {
  }

  lemma ReadStep(written: string, c: char, later: string)
    requires written != "" && written[0] != '"' && ReadChar(written + later) == Some(Read(c, later))
    ensures ReadText(written + later) ==
            var r := ReadText(later);
            if r.None? then None else Some(Read([c] + r.value.value, r.value.rest))
  {
  }

  lemma ReadOneMore(c: char, text: string, tail: string)
    requires ReadText(Escape(text) + tail).Some?
    ensures var r := ReadText(Escape(text) + tail).value;
            ReadText(Escape([c] + text) + tail) == Some(Read([c] + r.value, r.rest))
  {
    var later := Escape(text) + tail;
    ReadWrittenChar(c, later);
    WrittenIsNoQuote(c);
    ReadStep(EscapeChar(c), c, later);
    ConcatAssociates(EscapeChar(c), Escape(text), tail);
    assert ([c] + text)[1..] == text;
  }

  /** Escaping loses nothing: the reader finds the text and stops at its closing quote. */
  lemma {:induction false} ReadWrittenText(text: string, rest: string)
    ensures ReadText(Escape(text) + ("\"" + rest)) == Some(Read(text, rest))
  {
    var tail := "\"" + rest;
    if text == "" {
      assert Escape(text) + tail == tail && tail[1..] == rest;
    } else {
      ReadWrittenText(text[1..], rest);
      ReadOneMore(text[0], text[1..], tail);
      assert text == [text[0]] + text[1..];
    }
  }

  /** What follows `prefix` in `s`, if `s` starts with it. */
  function After(prefix: string, s: string): Option<string> {
    if prefix <= s then Some(s[|prefix|..]) else None
  }

  const REASON_KEY := ", \"reason\": \""

  function ReadReason(id: string, rest: string): Option<ReplyDocument> {
    if rest == "}" then Some(ReplyDocument(Some(id), None))
    else
      var after := After(REASON_KEY, rest);
      if after.None? then None
      else
        var reason := ReadText(after.value);
        if reason.None? || reason.value.rest != "}" then None
        else Some(ReplyDocument(Some(id), Some(reason.value.value)))
  }

  function ReadDocument(text: string): Option<ReplyDocument> {
    var after := After(OPENING, text);
    if after.None? then None
    else
      var id := ReadText(after.value);
      if id.None? then None else ReadReason(id.value.value, id.value.rest)
  }

  /** `json.loads` of the decoded body. */
  function LoadsBody(data: seq<byte>): Option<ReplyDocument> {
    var text := Utf8.Decode(data);
    if text.None? then None else ReadDocument(text.value)
  }

  lemma AfterPrefix(prefix: string, s: string)
    ensures After(prefix, prefix + s) == Some(s)
  {
  }

  predicate IsPlain(s: string) {
    forall i :: 0 <= i < |s| ==> 'A' <= s[i] <= 'Z' || s[i] == '_'
  }

  lemma {:induction false} PlainIsUnescaped(s: string)
    requires IsPlain(s)
    ensures Escape(s) == s
  {
    if s != "" {
      PlainIsUnescaped(s[1..]);
    }
  }

  lemma SomeReasonsArePlain()
    ensures IsPlain("SIG_INVALID") && IsPlain("POLICY_DENIED") && IsPlain("MALFORMED")
  {
  }

  lemma OtherReasonsArePlain()
    ensures IsPlain("UNKNOWN_SENDER") && IsPlain("INGEST_FAILED")
    ensures IsPlain("IDENTITY_MISMATCH") && IsPlain("REVOKED_CERT")
  {
  }

  lemma ReasonsArePlain(r: NackReason)
    ensures IsPlain(ReasonText(r))
  {
    SomeReasonsArePlain();
    OtherReasonsArePlain();
  }

  /** What follows the id's closing quote. */
  function Ending(r: Response): string {
    match r
    case AckOf(_) => "}"
    case NackOf(_, reason) => REASON_KEY + (Escape(ReasonText(reason)) + ("\"" + "}"))
  }

  lemma PunctuationSplits()
    ensures CLOSING == "\"" + "}" && MIDDLE == "\"" + REASON_KEY
  {
  }

  lemma AckText(id: string)
    ensures BodyText(AckOf(id)) == OPENING + (Escape(id) + ("\"" + Ending(AckOf(id))))
  {
    PunctuationSplits();
    ConcatAssociates(OPENING, Escape(id), CLOSING);
  }

  lemma SixParts(a: string, b: string, c: string, d: string, e: string, f: string)
    ensures ((a + b) + ((c + d) + e)) + f == a + (b + (c + (d + (e + f))))
  {
  }

  lemma NackText(id: string, reason: NackReason)
    ensures BodyText(NackOf(id, reason)) == OPENING + (Escape(id) + ("\"" + Ending(NackOf(id, reason))))
  {
    ReasonsArePlain(reason);
    PlainIsUnescaped(ReasonText(reason));
    PunctuationSplits();
    SixParts(OPENING, Escape(id), "\"", REASON_KEY, ReasonText(reason), "\"" + "}");
  }

  lemma BodyIsOpeningIdEnding(r: Response)
    ensures BodyText(r) == OPENING + (Escape(r.id) + ("\"" + Ending(r)))
  {
    match r
    case AckOf(id) => AckText(id);
    case NackOf(id, reason) => NackText(id, reason);
  }

  lemma EndingIsRead(r: Response)
    ensures ReadReason(r.id, Ending(r)) == Some(DocumentOf(r))
  {
    if r.NackOf? {
      var reason := ReasonText(r.reason);
      assert Ending(r)[0] == ',';
      AfterPrefix(REASON_KEY, Escape(reason) + ("\"" + "}"));
      ReadWrittenText(reason, "}");
    }
  }

  /** Every body gateway B writes decodes to the document it encodes, whatever characters the id has. */
  lemma BodyRoundTrip(r: Response)
    ensures LoadsBody(Body(r)) == Some(DocumentOf(r))
  {
    Utf8.RoundTrip(BodyText(r));
    BodyIsOpeningIdEnding(r);
    AfterPrefix(OPENING, Escape(r.id) + ("\"" + Ending(r)));
    ReadWrittenText(r.id, Ending(r));
    EndingIsRead(r);
  }

  /** So the law that the composed system asks of JSON is met. */
  lemma JsonLawIsMet()
    ensures JsonLaw(Body, LoadsBody)
  {
    forall r: Response
      ensures LoadsBody(Body(r)) == Some(DocumentOf(r))
    {
      BodyRoundTrip(r);
    }
    JsonLawHolds(LoadsBody);
  }
}
