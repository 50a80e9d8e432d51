/**
 The JSON of the two fixed records, claims and nonce record, as Go's `json.Marshal` prints it (in
 field order, without spaces, with Go's HTML-safe escapes) and as both readers accept it. Text is
 ASCII, one byte a character.
 */
module Json {
  import opened Wrappers
  import opened Base64Url

  // ---------------------------------------------------------------------------------------------
  // Strings
  // ---------------------------------------------------------------------------------------------

  predicate Ascii(s: string) {
    forall i :: 0 <= i < |s| ==> s[i] as int < 128
  }

  function HexDigit(d: int): char
    requires 0 <= d < 16
  {
    if d < 10 then ('0' as int + d) as char else ('a' as int + d - 10) as char
  }

  function HexValue(c: char): Option<int> {
    if '0' <= c <= '9' then Some(c as int - '0' as int)
    else if 'a' <= c <= 'f' then Some(c as int - 'a' as int + 10)
    else if 'A' <= c <= 'F' then Some(c as int - 'A' as int + 10)
    else None
  }

  /** The letter of a two-character escape, if the character has one. */
  function ShortEscape(c: char): Option<char> {
    if c == '"' || c == '\\' then Some(c)
    else if c as int == 8 then Some('b')
    else if c as int == 12 then Some('f')
    else if c == '\n' then Some('n')
    else if c == '\r' then Some('r')
    else if c == '\t' then Some('t')
    else None
  }

  function Unescape(c: char): Option<char> {
    if c == '"' || c == '\\' || c == '/' then Some(c)
    else if c == 'b' then Some(8 as char)
    else if c == 'f' then Some(12 as char)
    else if c == 'n' then Some('\n')
    else if c == 'r' then Some('\r')
    else if c == 't' then Some('\t')
    else None
  }

  predicate NeedsUnicodeEscape(c: char) {
    c as int < 32 || c == '<' || c == '>' || c == '&'
  }

  function EscapeChar(c: char): string
    requires c as int < 128
  {
    if ShortEscape(c).Some? then ['\\', ShortEscape(c).value]
    else if NeedsUnicodeEscape(c) then ['\\', 'u', '0', '0', HexDigit(c as int / 16), HexDigit(c as int % 16)]
    else [c]
  }

  function Escape(s: string): string
    requires Ascii(s)
  {
    if s == "" then "" else EscapeChar(s[0]) + Escape(s[1..])
  }

  /** One character of a string literal, raw or escaped, and the text after it. */
  function ReadChar(text: string): (r: Option<(char, string)>)
    ensures r.Some? ==> |r.value.1| < |text|
  {
    if text == "" || text[0] == '"' || text[0] as int < 32 then None
    else if text[0] != '\\' then Some((text[0], text[1..]))
    else if |text| < 2 then None
    else if text[1] != 'u' then
      var c :- Unescape(text[1]);
      Some((c, text[2..]))
    else if |text| < 6 then None
    else
      var a :- HexValue(text[2]);
      var b :- HexValue(text[3]);
      var c :- HexValue(text[4]);
      var d :- HexValue(text[5]);
      var code := a * 4096 + b * 256 + c * 16 + d;
      if code < 0xD800 then Some((code as char, text[6..])) else None
  }

  /** The rest of a string literal up to its closing quote. */
  function ReadChars(text: string): (r: Option<(string, string)>)
    ensures r.Some? ==> |r.value.1| < |text|
    decreases |text|
  {
    if text != "" && text[0] == '"' then Some(("", text[1..]))
    else
      var (c, rest) :- ReadChar(text);
      var (s, rest') :- ReadChars(rest);
      Some(([c] + s, rest'))
  }

  lemma ReadEscapedChar(c: char, rest: string)
    requires c as int < 128
    ensures EscapeChar(c)[0] != '"'
    ensures ReadChar(EscapeChar(c) + rest) == Some((c, rest))
  {
  }

  lemma {:induction false} ReadEscaped(s: string, rest: string)
    requires Ascii(s)
    ensures ReadChars(Escape(s) + ['"'] + rest) == Some((s, rest))
  {
    var text := Escape(s) + ['"'] + rest;
    if s == "" {
      assert text[1..] == rest;
    } else {
      var tail := Escape(s[1..]) + ['"'] + rest;
      assert text == EscapeChar(s[0]) + tail;
      ReadEscapedChar(s[0], tail);
      assert text[0] == EscapeChar(s[0])[0];
      ReadEscaped(s[1..], rest);
      assert s == [s[0]] + s[1..];
    }
  }

  // ---------------------------------------------------------------------------------------------
  // Numbers
  // ---------------------------------------------------------------------------------------------

  function Digits(n: nat): (s: string)
    ensures |s| > 0
    ensures '0' <= s[0] <= '9'
    ensures n > 0 ==> s[0] != '0'
  {
    if n < 10 then [('0' as int + n) as char] else Digits(n / 10) + [('0' as int + n % 10) as char]
  }

  function Decimal(n: int): string {
    if n < 0 then ['-'] + Digits(-n) else Digits(n)
  }

  /** Digits from the front of `text`, continuing the value `acc`. */
  function ReadDigits(acc: nat, text: string): (nat, string)
    decreases |text|
  {
    if text != "" && '0' <= text[0] <= '9'
    then ReadDigits(acc * 10 + (text[0] as int - '0' as int), text[1..])
    else (acc, text)
  }

  /** A JSON integer: no leading zero, no leading plus. */
  function ReadNat(text: string): Option<(nat, string)> {
    if text == "" || !('0' <= text[0] <= '9') then None
    else if text[0] == '0' then Some((0, text[1..]))
    else Some(ReadDigits(0, text))
  }

  function ReadInt(text: string): Option<(int, string)> {
    if text != "" && text[0] == '-' then
      var (n, rest) :- ReadNat(text[1..]);
      Some((-(n as int), rest))
    else
      var (n, rest) :- ReadNat(text);
      Some((n, rest))
  }

  predicate NoDigitFirst(text: string) {
    text == "" || !('0' <= text[0] <= '9')
  }

  function AppendDigits(acc: nat, n: nat): nat {
    if n < 10 then acc * 10 + n else AppendDigits(acc, n / 10) * 10 + n % 10
  }

  lemma {:induction false} AppendToZero(n: nat)
    ensures AppendDigits(0, n) == n
  {
    if n >= 10 {
      AppendToZero(n / 10);
    }
  }

  lemma {:induction false} ReadPrintedDigits(acc: nat, n: nat, rest: string)
    ensures ReadDigits(acc, Digits(n) + rest) == ReadDigits(AppendDigits(acc, n), rest)
  {
    if n < 10 {
      assert (Digits(n) + rest)[1..] == rest;
    } else {
      var last := [('0' as int + n % 10) as char];
      assert Digits(n) + rest == Digits(n / 10) + (last + rest);
      ReadPrintedDigits(acc, n / 10, last + rest);
      assert (last + rest)[1..] == rest;
    }
  }

  lemma ReadPrintedNat(n: nat, rest: string)
    requires NoDigitFirst(rest)
    ensures ReadNat(Digits(n) + rest) == Some((n, rest))
  {
    if n == 0 {
      assert (Digits(0) + rest)[1..] == rest;
    } else {
      ReadPrintedDigits(0, n, rest);
      AppendToZero(n);
      assert (Digits(n) + rest)[0] == Digits(n)[0];
    }
  }

  lemma ReadPrintedInt(n: int, rest: string)
    requires NoDigitFirst(rest)
    ensures ReadInt(Decimal(n) + rest) == Some((n, rest))
  {
    var text := Decimal(n) + rest;
    if n < 0 {
      assert text[0] == '-' && text[1..] == Digits(-n) + rest;
      ReadPrintedNat(-n, rest);
      assert ReadInt(text) == Some((n, rest));
    } else {
      assert text[0] == Digits(n)[0] && text[0] != '-';
      ReadPrintedNat(n, rest);
    }
  }

  // ---------------------------------------------------------------------------------------------
  // Fields
  // ---------------------------------------------------------------------------------------------

  /** The text after `literal`, if `text` starts with it. */
  function Expect(literal: string, text: string): Option<string> {
    if literal <= text then Some(text[|literal|..]) else None
  }

  /** `<separator>"<key>":`, the text that opens a field. */
  function Label(separator: char, key: string): string {
    [separator, '"'] + key + ['"', ':']
  }

  function StringField(separator: char, key: string, value: string): string
    requires Ascii(value)
  {
    Label(separator, key) + ['"'] + Escape(value) + ['"']
  }

  function IntField(separator: char, key: string, value: int): string {
    Label(separator, key) + Decimal(value)
  }

  function ReadStringField(separator: char, key: string, text: string): Option<(string, string)> {
    var rest :- Expect(Label(separator, key), text);
    var chars :- Expect(['"'], rest);
    ReadChars(chars)
  }

  function ReadIntField(separator: char, key: string, text: string): Option<(int, string)> {
    var rest :- Expect(Label(separator, key), text);
    ReadInt(rest)
  }

  lemma ReadPrintedStringField(separator: char, key: string, value: string, rest: string)
    requires Ascii(value)
    ensures ReadStringField(separator, key, StringField(separator, key, value) + rest) == Some((value, rest))
  {
    var open := Label(separator, key);
    var text := StringField(separator, key, value) + rest;
    var tail := ['"'] + (Escape(value) + ['"'] + rest);
    assert text == open + tail;
    assert text[|open|..] == tail;
    assert tail[1..] == Escape(value) + ['"'] + rest;
    ReadEscaped(value, rest);
  }

  lemma ReadPrintedIntField(separator: char, key: string, value: int, rest: string)
    requires NoDigitFirst(rest)
    ensures ReadIntField(separator, key, IntField(separator, key, value) + rest) == Some((value, rest))
  {
    var open := Label(separator, key);
    var text := IntField(separator, key, value) + rest;
    assert text == open + (Decimal(value) + rest);
    assert text[|open|..] == Decimal(value) + rest;
    ReadPrintedInt(value, rest);
  }

  // ---------------------------------------------------------------------------------------------
  // Records
  // ---------------------------------------------------------------------------------------------

  /** A session token's payload (webauth/token.go); the times are seconds since the epoch. */
  datatype Claims = Claims(group: string, member: string, issuedAt: int, expires: int, absolute: int)

  /** What a pending link stores under its nonce (webauth/webauth.go). */
  datatype NonceRecord = NonceRecord(group: string, member: string, expires: int)

  predicate Int64(n: int) {
    -0x8000_0000_0000_0000 <= n < 0x8000_0000_0000_0000
  }

  predicate Printable(c: Claims) {
    Ascii(c.group) && Ascii(c.member) && Int64(c.issuedAt) && Int64(c.expires) && Int64(c.absolute)
  }

  predicate PrintableRecord(r: NonceRecord) {
    Ascii(r.group) && Ascii(r.member) && Int64(r.expires)
  }

  /** The three times and the closing brace. */
  function PrintTimes(issuedAt: int, expires: int, absolute: int): string {
    IntField(',', "iat", issuedAt) + (IntField(',', "exp", expires) + (IntField(',', "abs", absolute) + ['}']))
  }

  function ReadTimes(text: string): Option<(int, int, int)> {
    var (issuedAt, t1) :- ReadIntField(',', "iat", text);
    var (expires, t2) :- ReadIntField(',', "exp", t1);
    var (absolute, t3) :- ReadIntField(',', "abs", t2);
    if t3 == ['}'] then Some((issuedAt, expires, absolute)) else None
  }

  lemma ReadPrintedTimes(issuedAt: int, expires: int, absolute: int)
    ensures ReadTimes(PrintTimes(issuedAt, expires, absolute)) == Some((issuedAt, expires, absolute))
  {
    var t3: string := ['}'];
    var t2 := IntField(',', "abs", absolute) + t3;
    var t1 := IntField(',', "exp", expires) + t2;
    assert ReadIntField(',', "iat", IntField(',', "iat", issuedAt) + t1) == Some((issuedAt, t1)) by {
      FieldFirst(',', "exp", expires, t2);
      ReadPrintedIntField(',', "iat", issuedAt, t1);
    }
    assert ReadIntField(',', "exp", t1) == Some((expires, t2)) by {
      FieldFirst(',', "abs", absolute, t3);
      ReadPrintedIntField(',', "exp", expires, t2);
    }
    assert ReadIntField(',', "abs", t2) == Some((absolute, t3)) by {
      ReadPrintedIntField(',', "abs", absolute, t3);
    }
  }

  function PrintClaims(c: Claims): string
    requires Ascii(c.group) && Ascii(c.member)
  {
    StringField('{', "grp", c.group)
    + (StringField(',', "mbr", c.member) + PrintTimes(c.issuedAt, c.expires, c.absolute))
  }

  function ReadClaims(text: string): Option<Claims> {
    var (group, t1) :- ReadStringField('{', "grp", text);
    var (member, t2) :- ReadStringField(',', "mbr", t1);
    var (issuedAt, expires, absolute) :- ReadTimes(t2);
    Some(Claims(group, member, issuedAt, expires, absolute))
  }

  lemma ReadPrintedClaims(c: Claims)
    requires Ascii(c.group) && Ascii(c.member)
    ensures ReadClaims(PrintClaims(c)) == Some(c)
  {
    var t2 := PrintTimes(c.issuedAt, c.expires, c.absolute);
    var t1 := StringField(',', "mbr", c.member) + t2;
    ReadPrintedStringField('{', "grp", c.group, t1);
    ReadPrintedStringField(',', "mbr", c.member, t2);
    ReadPrintedTimes(c.issuedAt, c.expires, c.absolute);
  }

  lemma FieldFirst(separator: char, key: string, value: int, rest: string)
    requires !('0' <= separator <= '9')
    ensures NoDigitFirst(IntField(separator, key, value) + rest)
  {
  }

  function PrintRecord(r: NonceRecord): string
    requires Ascii(r.group) && Ascii(r.member)
  {
    StringField('{', "grp", r.group) + (StringField(',', "mbr", r.member) + (IntField(',', "exp", r.expires) + ['}']))
  }

  function ReadRecord(text: string): Option<NonceRecord> {
    var (group, t1) :- ReadStringField('{', "grp", text);
    var (member, t2) :- ReadStringField(',', "mbr", t1);
    var (expires, t3) :- ReadIntField(',', "exp", t2);
    if t3 == ['}'] && Int64(expires) then Some(NonceRecord(group, member, expires)) else None
  }

  lemma ReadPrintedRecord(r: NonceRecord)
    requires PrintableRecord(r)
    ensures ReadRecord(PrintRecord(r)) == Some(r)
  {
    var t3: string := ['}'];
    var t2 := IntField(',', "exp", r.expires) + t3;
    var t1 := StringField(',', "mbr", r.member) + t2;
    ReadPrintedStringField('{', "grp", r.group, t1);
    ReadPrintedStringField(',', "mbr", r.member, t2);
    ReadPrintedIntField(',', "exp", r.expires, t3);
  }

  // ---------------------------------------------------------------------------------------------
  // Bytes
  // ---------------------------------------------------------------------------------------------

  function ToBytes(s: string): seq<byte>
    requires Ascii(s)
  {
    if s == "" then [] else [s[0] as int] + ToBytes(s[1..])
  }

  /** Bytes as ASCII text; a byte outside ASCII is refused. */
  function FromBytes(b: seq<byte>): Option<string> {
    if b == [] then Some("")
    else if b[0] >= 128 then None
    else
      var rest :- FromBytes(b[1..]);
      Some([b[0] as char] + rest)
  }

  lemma {:induction false} FromToBytes(s: string)
    requires Ascii(s)
    ensures FromBytes(ToBytes(s)) == Some(s)
  {
    if s != "" {
      var b, rest := ToBytes(s), ToBytes(s[1..]);
      assert b == [s[0] as int] + rest;
      assert b[0] as char == s[0] && b[1..] == rest;
      FromToBytes(s[1..]);
      assert FromBytes(b) == Some([s[0]] + s[1..]);
      assert s == [s[0]] + s[1..];
    }
  }

  lemma AsciiConcat(a: string, b: string)
    requires Ascii(a) && Ascii(b)
    ensures Ascii(a + b)
  {
  }

  lemma {:induction false} EscapeIsAscii(s: string)
    requires Ascii(s)
    ensures Ascii(Escape(s))
  {
    if s != "" {
      EscapeIsAscii(s[1..]);
      AsciiConcat(EscapeChar(s[0]), Escape(s[1..]));
    }
  }

  lemma {:induction false} DigitsAreAscii(n: nat)
    ensures Ascii(Digits(n))
  {
    if n >= 10 {
      DigitsAreAscii(n / 10);
      AsciiConcat(Digits(n / 10), [('0' as int + n % 10) as char]);
    }
  }

  lemma StringFieldIsAscii(separator: char, key: string, value: string)
    requires separator as int < 128 && Ascii(key) && Ascii(value)
    ensures Ascii(StringField(separator, key, value))
  {
    EscapeIsAscii(value);
  }

  lemma IntFieldIsAscii(separator: char, key: string, value: int)
    requires separator as int < 128 && Ascii(key)
    ensures Ascii(IntField(separator, key, value))
  {
    DigitsAreAscii(if value < 0 then -value else value);
  }

  lemma PrintedTimesAreAscii(issuedAt: int, expires: int, absolute: int)
    ensures Ascii(PrintTimes(issuedAt, expires, absolute))
  {
    var iat, exp, abs := IntField(',', "iat", issuedAt), IntField(',', "exp", expires), IntField(',', "abs", absolute);
    assert Ascii(iat) by { IntFieldIsAscii(',', "iat", issuedAt); }
    assert Ascii(exp) by { IntFieldIsAscii(',', "exp", expires); }
    assert Ascii(abs) by { IntFieldIsAscii(',', "abs", absolute); }
    AsciiConcat(abs, ['}']);
    AsciiConcat(exp, abs + ['}']);
    AsciiConcat(iat, exp + (abs + ['}']));
  }

  lemma PrintedClaimsAreAscii(c: Claims)
    requires Ascii(c.group) && Ascii(c.member)
    ensures Ascii(PrintClaims(c))
  {
    var grp, mbr := StringField('{', "grp", c.group), StringField(',', "mbr", c.member);
    var times := PrintTimes(c.issuedAt, c.expires, c.absolute);
    assert Ascii(grp) by { StringFieldIsAscii('{', "grp", c.group); }
    assert Ascii(mbr) by { StringFieldIsAscii(',', "mbr", c.member); }
    PrintedTimesAreAscii(c.issuedAt, c.expires, c.absolute);
    AsciiConcat(mbr, times);
    AsciiConcat(grp, mbr + times);
  }

  // ---------------------------------------------------------------------------------------------
  // The text as it stands
  // ---------------------------------------------------------------------------------------------

  /** Characters that stand for themselves in a JSON string, as those of a JID do. */
  predicate Plain(s: string) {
    forall i :: 0 <= i < |s| ==> 32 <= s[i] as int < 127 && s[i] !in ['"', '\\', '<', '>', '&']
  }

  lemma {:induction false} PlainIsNotEscaped(s: string)
    requires Plain(s)
    ensures Escape(s) == s
  {
    if s != "" {
      PlainIsNotEscaped(s[1..]);
      assert EscapeChar(s[0]) == [s[0]];
    }
  }

  lemma PlainField(separator: char, key: string, value: string, opening: string)
    requires Plain(value) && opening == Label(separator, key) + ['"']
    ensures StringField(separator, key, value) == opening + value + "\""
  {
    PlainIsNotEscaped(value);
  }

  /** What is signed, character by character. */
  lemma ClaimsText(c: Claims)
    requires Plain(c.group) && Plain(c.member)
    ensures PrintClaims(c) ==
      ("{\"grp\":\"" + c.group + "\"")
      + ((",\"mbr\":\"" + c.member + "\"")
         + ((",\"iat\":" + Decimal(c.issuedAt))
            + ((",\"exp\":" + Decimal(c.expires)) + ((",\"abs\":" + Decimal(c.absolute)) + "}"))))
  {
    PlainField('{', "grp", c.group, "{\"grp\":\"");
    PlainField(',', "mbr", c.member, ",\"mbr\":\"");
    assert Label(',', "iat") == ",\"iat\":" && Label(',', "exp") == ",\"exp\":" && Label(',', "abs") == ",\"abs\":";
  }

  /** What is stored under a nonce. */
  lemma RecordText(r: NonceRecord)
    requires Plain(r.group) && Plain(r.member)
    ensures PrintRecord(r) ==
      ("{\"grp\":\"" + r.group + "\"")
      + ((",\"mbr\":\"" + r.member + "\"") + ((",\"exp\":" + Decimal(r.expires)) + "}"))
  {
    PlainField('{', "grp", r.group, "{\"grp\":\"");
    PlainField(',', "mbr", r.member, ",\"mbr\":\"");
    assert Label(',', "exp") == ",\"exp\":";
  }

  lemma {:induction false} ToBytesConcat(a: string, b: string)
    requires Ascii(a) && Ascii(b)
    ensures Ascii(a + b) && ToBytes(a + b) == ToBytes(a) + ToBytes(b)
  {
    AsciiConcat(a, b);
    if a == "" {
      assert a + b == b;
    } else {
      assert (a + b)[1..] == a[1..] + b;
      ToBytesConcat(a[1..], b);
    }
  }
}
