/**
 Unpadded base64url (section 5 of RFC 4648, Appendix C of RFC 7515) as each side computes it: Go's
 `base64.RawURLEncoding`, and the dashboard's `b64urlDecode` on top of `atob`.
 */
module Base64Url {
  import opened Wrappers

  type byte = x: int | 0 <= x < 256
  type sextet = x: int | 0 <= x < 64

  // ---------------------------------------------------------------------------------------------
  // Bit packing
  // ---------------------------------------------------------------------------------------------

  /** The four sextets of three bytes. */
  function Group(a: byte, b: byte, c: byte): (r: seq<sextet>)
    ensures |r| == 4
  {
    [a / 4, a % 4 * 16 + b / 16, b % 16 * 4 + c / 64, c % 64]
  }

  /** The three bytes of four sextets. */
  function Ungroup(w: sextet, x: sextet, y: sextet, z: sextet): (r: seq<byte>)
    ensures |r| == 3
  {
    [w as int * 4 + x as int / 16, x as int % 16 * 16 + y as int / 4, y as int % 4 * 64 + z as int]
  }

  lemma UngroupGroup(a: byte, b: byte, c: byte)
    ensures var g := Group(a, b, c); Ungroup(g[0], g[1], g[2], g[3]) == [a, b, c]
    ensures c == 0 ==> Group(a, b, c)[3] == 0
    ensures b == 0 && c == 0 ==> Group(a, b, c)[2] == 0
  {
    Halves(a as int % 4, b as int / 16, b as int % 16, c as int / 64);
  }

  /** A sextet made of two parts gives the parts back. */
  lemma Halves(a: int, b: int, b': int, c: int)
    requires 0 <= b < 16 && 0 <= c < 4
    ensures (a * 16 + b) / 16 == a && (a * 16 + b) % 16 == b
    ensures (b' * 4 + c) / 4 == b' && (b' * 4 + c) % 4 == c
  {
  }

  /** Three bytes to four sextets; a last group of one or two bytes to two or three. */
  function Pack(b: seq<byte>): seq<sextet> {
    if |b| == 0 then []
    else if |b| == 1 then Group(b[0], 0, 0)[..2]
    else if |b| == 2 then Group(b[0], b[1], 0)[..3]
    else Group(b[0], b[1], b[2]) + Pack(b[3..])
  }

  /** The inverse; unused trailing bits are dropped, a lone last sextet is an error. */
  function Unpack(d: seq<sextet>): Option<seq<byte>> {
    if |d| == 0 then Some([])
    else if |d| == 1 then None
    else if |d| == 2 then Some(Ungroup(d[0], d[1], 0, 0)[..1])
    else if |d| == 3 then Some(Ungroup(d[0], d[1], d[2], 0)[..2])
    else
      var rest :- Unpack(d[4..]);
      Some(Ungroup(d[0], d[1], d[2], d[3]) + rest)
  }

  lemma UnpackPackShort(b: seq<byte>)
    requires |b| < 3
    ensures Unpack(Pack(b)) == Some(b) && |Pack(b)| % 4 != 1
  {
    if |b| == 1 {
      UngroupGroup(b[0], 0, 0);
      assert Unpack(Pack(b)).value == b;
    } else if |b| == 2 {
      UngroupGroup(b[0], b[1], 0);
      assert Unpack(Pack(b)).value == b;
    }
  }

  lemma {:induction false} UnpackPack(b: seq<byte>)
    ensures Unpack(Pack(b)) == Some(b)
    ensures |Pack(b)| % 4 != 1
  {
    if |b| < 3 {
      UnpackPackShort(b);
    } else {
      var g, rest := Group(b[0], b[1], b[2]), Pack(b[3..]);
      UnpackPack(b[3..]);
      UngroupGroup(b[0], b[1], b[2]);
      UnpackGroup(g, rest);
      assert b == [b[0], b[1], b[2]] + b[3..];
    }
  }

  lemma UnpackGroup(g: seq<sextet>, rest: seq<sextet>)
    requires |g| == 4 && Unpack(rest).Some?
    ensures Unpack(g + rest) == Some(Ungroup(g[0], g[1], g[2], g[3]) + Unpack(rest).value)
    ensures |g + rest| % 4 == |rest| % 4
  {
  }

  /** Only a length of 1 mod 4 makes unpacking fail. */
  lemma {:induction false} UnpackFails(d: seq<sextet>)
    ensures Unpack(d) == None <==> |d| % 4 == 1
  {
    if |d| >= 4 {
      var rest := d[4..];
      assert |d| % 4 == |rest| % 4;
      UnpackFails(rest);
    }
  }

  // ---------------------------------------------------------------------------------------------
  // Alphabets
  // ---------------------------------------------------------------------------------------------

  function UrlChar(d: sextet): char {
    if d < 26 then ('A' as int + d) as char
    else if d < 52 then ('a' as int + d - 26) as char
    else if d < 62 then ('0' as int + d - 52) as char
    else if d == 62 then '-' else '_'
  }

  function AlphaNumValue(c: char): Option<sextet> {
    if 'A' <= c <= 'Z' then Some(c as int - 'A' as int)
    else if 'a' <= c <= 'z' then Some(c as int - 'a' as int + 26)
    else if '0' <= c <= '9' then Some(c as int - '0' as int + 52)
    else None
  }

  function UrlValue(c: char): Option<sextet> {
    if c == '-' then Some(62) else if c == '_' then Some(63) else AlphaNumValue(c)
  }

  /** The standard alphabet, the one `atob` reads. */
  function StdValue(c: char): Option<sextet> {
    if c == '+' then Some(62) else if c == '/' then Some(63) else AlphaNumValue(c)
  }

  predicate UrlText(s: string) {
    forall i :: 0 <= i < |s| ==> UrlValue(s[i]).Some?
  }

  function UrlChars(d: seq<sextet>): (s: string)
    ensures |s| == |d|
    ensures forall i :: 0 <= i < |d| ==> s[i] == UrlChar(d[i])
  {
    if d == [] then "" else [UrlChar(d[0])] + UrlChars(d[1..])
  }

  /** The sextets of a text, or none if a character is outside the alphabet. */
  function Values(value: char -> Option<sextet>, s: string): Option<seq<sextet>> {
    if s == "" then Some([])
    else
      var d :- value(s[0]);
      var rest :- Values(value, s[1..]);
      Some([d] + rest)
  }

  lemma UrlCharHasItsValue(d: sextet)
    ensures UrlValue(UrlChar(d)) == Some(d)
  {
  }

  lemma {:induction false} ValuesOfUrlChars(d: seq<sextet>)
    ensures Values(UrlValue, UrlChars(d)) == Some(d)
  {
    if d != [] {
      ValuesOfUrlChars(d[1..]);
      assert UrlChars(d)[1..] == UrlChars(d[1..]);
      UrlCharHasItsValue(d[0]);
      assert d == [d[0]] + d[1..];
    }
  }

  lemma UrlCharsAreUrlText(d: seq<sextet>)
    ensures UrlText(UrlChars(d))
  {
  }

  lemma {:induction false} ValuesLength(value: char -> Option<sextet>, s: string)
    ensures Values(value, s).Some? <==> forall i :: 0 <= i < |s| ==> value(s[i]).Some?
    ensures Values(value, s).Some? ==> |Values(value, s).value| == |s|
  {
    if s != "" {
      ValuesLength(value, s[1..]);
      if value(s[0]).Some? && forall i :: 0 <= i < |s[1..]| ==> value(s[1..][i]).Some? {
        forall i | 0 <= i < |s| ensures value(s[i]).Some? {
          assert i > 0 ==> s[i] == s[1..][i - 1];
        }
      }
    }
  }

  /** Table 2 of RFC 4648: the first and last of each block, the blocks in order, and the two signs. */
  lemma AlphabetIsTheTable(d: sextet)
    ensures UrlChar(0) == 'A' && UrlChar(25) == 'Z' && UrlChar(26) == 'a' && UrlChar(51) == 'z'
    ensures UrlChar(52) == '0' && UrlChar(61) == '9' && UrlChar(62) == '-' && UrlChar(63) == '_'
    ensures d < 61 && d != 25 && d != 51 ==> UrlChar(d + 1) as int == UrlChar(d) as int + 1
  {
  }

  /** A group is its three bytes as one number, most significant bits first. */
  lemma GroupIsTheNumber(a: byte, b: byte, c: byte)
    ensures var g := Group(a, b, c);
      g[0] as int * 262144 + g[1] as int * 4096 + g[2] as int * 64 + g[3] as int
        == a as int * 65536 + b as int * 256 + c as int
  {
  }

  // ---------------------------------------------------------------------------------------------
  // Go
  // ---------------------------------------------------------------------------------------------

  function Encode(b: seq<byte>): string {
    UrlChars(Pack(b))
  }

  predicate NewLine(c: char) {
    c == '\n' || c == '\r'
  }

  function Without(drop: char -> bool, s: string): string {
    if s == "" then "" else (if drop(s[0]) then "" else [s[0]]) + Without(drop, s[1..])
  }

  lemma {:induction false} WithoutNothing(drop: char -> bool, s: string)
    requires forall i :: 0 <= i < |s| ==> !drop(s[i])
    ensures Without(drop, s) == s
  {
    if s != "" {
      WithoutNothing(drop, s[1..]);
    }
  }

  /** `RawURLEncoding.DecodeString`: newlines are skipped, trailing bits ignored. */
  function Decode(s: string): Option<seq<byte>> {
    var d :- Values(UrlValue, Without(NewLine, s));
    Unpack(d)
  }

  lemma DecodeEncode(b: seq<byte>)
    ensures Decode(Encode(b)) == Some(b)
    ensures UrlText(Encode(b))
    ensures |Encode(b)| % 4 != 1
  {
    UnpackPack(b);
    ValuesOfUrlChars(Pack(b));
    UrlCharsAreUrlText(Pack(b));
    forall i | 0 <= i < |Encode(b)| ensures !NewLine(Encode(b)[i]) {
      assert UrlValue(Encode(b)[i]).Some?;
    }
    WithoutNothing(NewLine, Encode(b));
  }

  lemma EncodeThree(b: seq<byte>, rest: seq<byte>)
    requires |b| == 3
    ensures Encode(b + rest) == Encode(b) + Encode(rest)
  {
    assert (b + rest)[3..] == rest && b[3..] == [];
    assert Pack(b) == Group(b[0], b[1], b[2]) && Pack(b + rest) == Pack(b) + Pack(rest);
    UrlCharsConcat(Pack(b), Pack(rest));
  }

  lemma {:induction false} UrlCharsConcat(a: seq<sextet>, b: seq<sextet>)
    ensures UrlChars(a + b) == UrlChars(a) + UrlChars(b)
  {
    if a == [] {
      assert a + b == b;
    } else {
      assert (a + b)[1..] == a[1..] + b;
      UrlCharsConcat(a[1..], b);
    }
  }

  lemma {:induction false} WithoutConcat(drop: char -> bool, a: string, b: string)
    ensures Without(drop, a + b) == Without(drop, a) + Without(drop, b)
  {
    if a == "" {
      assert a + b == b;
    } else {
      assert (a + b)[1..] == a[1..] + b;
      WithoutConcat(drop, a[1..], b);
    }
  }

  /** Line breaks anywhere in a text do not change what Go decodes. */
  lemma LineBreaksAreSkipped(a: string, c: char, b: string)
    requires NewLine(c)
    ensures Decode(a + [c] + b) == Decode(a + b)
  {
    WithoutConcat(NewLine, a + [c], b);
    WithoutConcat(NewLine, a, [c]);
    WithoutConcat(NewLine, a, b);
    assert [c][1..] == "" && Without(NewLine, [c]) == "";
    assert Without(NewLine, a) + "" == Without(NewLine, a);
  }

  // ---------------------------------------------------------------------------------------------
  // The dashboard
  // ---------------------------------------------------------------------------------------------

  predicate WhiteSpace(c: char) {
    c == '\t' || c == '\n' || c == '\U{000C}' || c == '\r' || c == ' '
  }

  function StripPadding(s: string): string {
    if |s| % 4 == 0 && |s| >= 2 && s[|s| - 1] == '=' then
      if s[|s| - 2] == '=' then s[..|s| - 2] else s[..|s| - 1]
    else s
  }

  /** `atob`, the forgiving-base64 decode of the WHATWG Infra standard, as bytes. */
  function Atob(s: string): Option<seq<byte>> {
    var d :- Values(StdValue, StripPadding(Without(WhiteSpace, s)));
    Unpack(d)
  }

  function ToStd(c: char): char {
    if c == '-' then '+' else if c == '_' then '/' else c
  }

  function ToStdText(s: string): (r: string)
    ensures |r| == |s|
    ensures forall i :: 0 <= i < |s| ==> r[i] == ToStd(s[i])
  {
    if s == "" then "" else [ToStd(s[0])] + ToStdText(s[1..])
  }

  /** `"=".repeat(4 - n % 4)`, or nothing for a multiple of four. */
  function Padding(n: nat): (pad: string)
    ensures |pad| == (if n % 4 == 0 then 0 else 4 - n % 4)
    ensures forall i :: 0 <= i < |pad| ==> pad[i] == '='
  {
    if n % 4 == 0 then [] else if n % 4 == 1 then ['=', '=', '='] else if n % 4 == 2 then ['=', '='] else ['=']
  }

  function TsDecode(input: string): Option<seq<byte>> {
    Atob(ToStdText(input) + Padding(|input|))
  }

  /** `b64urlDecode` itself, with the loop that copies the decoded characters into the array. None
      stands for the exception `atob` throws. */
  method B64urlDecode(input: string) returns (r: Option<array<byte>>)
    ensures r.Some? <==> TsDecode(input).Some?
    ensures r.Some? ==> fresh(r.value) && r.value[..] == TsDecode(input).value
  {
    var bin := Atob(ToStdText(input) + Padding(|input|));
    if bin.None? {
      return None;
    }
    var out := new byte[|bin.value|];
    for i := 0 to |bin.value|
      invariant out[..i] == bin.value[..i]
    {
      out[i] := bin.value[i];
    }
    assert out[..] == bin.value;
    return Some(out);
  }

  lemma {:induction false} StdValues(s: string)
    requires UrlText(s)
    ensures Values(StdValue, ToStdText(s)) == Values(UrlValue, s)
  {
    if s != "" {
      assert ToStdText(s)[1..] == ToStdText(s[1..]);
      StdValues(s[1..]);
    }
  }

  /** What `atob` leaves of a text padded to a multiple of four: it strips two signs at most. */
  lemma StripPadded(t: string, pad: string)
    requires |pad| <= 3 && (|t| + |pad|) % 4 == 0
    requires forall i :: 0 <= i < |t| ==> t[i] != '='
    requires forall i :: 0 <= i < |pad| ==> pad[i] == '='
    ensures StripPadding(t + pad) == if |pad| == 3 then t + [pad[0]] else t
  {
    var p := t + pad;
    assert |p| % 4 == 0;
    if |pad| == 0 {
      assert p == t;
    } else if |pad| == 1 {
      assert p[|p| - 1] == pad[0] && p[|p| - 2] == t[|t| - 1];
      assert p[..|p| - 1] == t;
    } else if |pad| == 2 {
      assert p[|p| - 1] == pad[1] && p[|p| - 2] == pad[0];
      assert p[..|p| - 2] == t;
    } else {
      assert p[|p| - 1] == pad[2] && p[|p| - 2] == pad[1];
      assert p[..|p| - 2] == t + [pad[0]];
    }
  }

  /** The same with `atob`'s white-space pass before it, which finds nothing to drop. */
  lemma StrippedText(t: string, pad: string)
    requires |pad| <= 3 && (|t| + |pad|) % 4 == 0
    requires forall i :: 0 <= i < |pad| ==> pad[i] == '='
    requires forall i :: 0 <= i < |t| ==> t[i] != '=' && !WhiteSpace(t[i])
    ensures StripPadding(Without(WhiteSpace, t + pad)) == if |pad| == 3 then t + [pad[0]] else t
  {
    var p := t + pad;
    forall i | 0 <= i < |p| ensures !WhiteSpace(p[i]) {
      assert p[i] == if i < |t| then t[i] else pad[i - |t|];
    }
    WithoutNothing(WhiteSpace, p);
    StripPadded(t, pad);
  }

  lemma StdTextIsPlain(s: string)
    requires UrlText(s)
    ensures forall i :: 0 <= i < |s| ==> ToStdText(s)[i] != '=' && !WhiteSpace(ToStdText(s)[i])
  {
  }

  /** On every text over the base64url alphabet, including the ones both must refuse, the two
      decoders agree; so the padding rule is right. */
  lemma DecodersAgree(s: string)
    requires UrlText(s)
    ensures TsDecode(s) == Decode(s)
    ensures Decode(s) == None <==> |s| % 4 == 1
  {
    StdTextIsPlain(s);
    StrippedText(ToStdText(s), Padding(|s|));
    assert Without(NewLine, s) == s by {
      assert forall i :: 0 <= i < |s| ==> UrlValue(s[i]).Some? && !NewLine(s[i]);
      WithoutNothing(NewLine, s);
    }
    ValuesLength(UrlValue, s);
    UnpackFails(Values(UrlValue, s).value);
    if |s| % 4 == 1 {
      var t := ToStdText(s) + ['='];
      assert Values(StdValue, t) == None by {
        assert StdValue(t[|s|]) == None;
        ValuesLength(StdValue, t);
      }
    } else {
      StdValues(s);
    }
  }

  lemma StdCharStays(c: char)
    requires StdValue(c).Some?
    ensures ToStd(c) == c && c != '=' && !NewLine(c) && !WhiteSpace(c)
  {
  }

  lemma StdTextStays(s: string)
    requires forall i :: 0 <= i < |s| ==> StdValue(s[i]).Some?
    ensures ToStdText(s) == s
    ensures forall i :: 0 <= i < |s| ==> s[i] != '=' && !NewLine(s[i]) && !WhiteSpace(s[i])
  {
    forall i | 0 <= i < |s| ensures ToStd(s[i]) == s[i] && s[i] != '=' && !NewLine(s[i]) && !WhiteSpace(s[i]) {
      StdCharStays(s[i]);
    }
  }

  /** Outside the alphabet they part: a text over the standard alphabet that uses '+' or '/' is refused by
      Go, and read by the dashboard unless its length is 1 mod 4. */
  lemma OnlyTheDashboardReadsTheStandardAlphabet(s: string)
    requires forall i :: 0 <= i < |s| ==> StdValue(s[i]).Some?
    requires '+' in s || '/' in s
    ensures Decode(s) == None
    ensures TsDecode(s).Some? <==> |s| % 4 != 1
  {
    StdTextStays(s);
    assert Decode(s) == None by {
      WithoutNothing(NewLine, s);
      ValuesLength(UrlValue, s);
      var i :| 0 <= i < |s| && (s[i] == '+' || s[i] == '/');
      assert UrlValue(s[i]) == None;
    }
    StrippedText(s, Padding(|s|));
    if |s| % 4 == 1 {
      var t := s + ['='];
      assert StdValue(t[|s|]) == None;
      ValuesLength(StdValue, t);
    } else {
      ValuesLength(StdValue, s);
      UnpackFails(Values(StdValue, s).value);
    }
  }
}
