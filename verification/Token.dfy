/**
 Session tokens: JWS compact serialization (section 7.1 of RFC 7515) with HS256 (section 3.2 of
 RFC 7518), signed and parsed by the bot (webauth/token.go) and verified a second time by the
 dashboard (examples/webauth-dev/web/lib/token.ts). The MAC under the shared key is a function from
 the signing input to bytes; that nobody else can produce it is a hypothesis, `Unforged`.
 */
module Token {
  import opened Wrappers
  import opened Base64Url
  import opened Json

  type Mac = string -> seq<byte>

  const HEADER := "eyJhbGciOiJIUzI1NiIsInR5cCI6IkpXVCJ9"

  datatype TokenError =
    | MalformedToken | UnexpectedHeader | MalformedSignature | BadSignature
    | MalformedPayload | MalformedClaims | IncompleteClaims

  // ---------------------------------------------------------------------------------------------
  // Segments
  // ---------------------------------------------------------------------------------------------

  predicate NoDot(s: string) {
    forall i :: 0 <= i < |s| ==> s[i] != '.'
  }

  /** `strings.Split(s, ".")`. */
  function Split(s: string): (parts: seq<string>)
    ensures |parts| >= 1
  {
    if s == "" then [""]
    else
      var rest := Split(s[1..]);
      if s[0] == '.' then [""] + rest else [[s[0]] + rest[0]] + rest[1..]
  }

  function Join(parts: seq<string>): string
    requires |parts| >= 1
  {
    if |parts| == 1 then parts[0] else parts[0] + ['.'] + Join(parts[1..])
  }

  lemma {:induction false} SplitPlain(a: string)
    requires NoDot(a)
    ensures Split(a) == [a]
  {
    if a != "" {
      SplitPlain(a[1..]);
      assert a == [a[0]] + a[1..];
    }
  }

  lemma {:induction false} SplitFirst(a: string, rest: string)
    requires NoDot(a)
    ensures Split(a + ['.'] + rest) == [a] + Split(rest)
  {
    var s := a + ['.'] + rest;
    if a == "" {
      assert s[1..] == rest;
    } else {
      assert s[1..] == a[1..] + ['.'] + rest;
      SplitFirst(a[1..], rest);
      assert a == [a[0]] + a[1..];
    }
  }

  /** Splitting loses nothing and leaves no dot inside a segment. */
  lemma {:induction false} JoinSplit(s: string)
    ensures Join(Split(s)) == s
    ensures forall i :: 0 <= i < |Split(s)| ==> NoDot(Split(s)[i])
  {
    if s != "" {
      var rest := Split(s[1..]);
      JoinSplit(s[1..]);
      if s[0] == '.' {
        assert Split(s)[1..] == rest;
        assert s == ['.'] + s[1..];
      } else {
        assert Split(s)[1..] == rest[1..];
        assert s == [s[0]] + s[1..];
        assert NoDot(rest[0]);
      }
    }
  }

  /** What the MAC covers: the exact text of the first two segments. */
  function SigningInput(header: string, payload: string): string {
    header + ['.'] + payload
  }

  lemma SigningInputIsInjective(h: string, p: string, h': string, p': string)
    requires NoDot(h) && NoDot(p) && NoDot(h') && NoDot(p')
    requires SigningInput(h, p) == SigningInput(h', p')
    ensures h == h' && p == p'
  {
    SplitFirst(h, p);
    SplitFirst(h', p');
    SplitPlain(p);
    SplitPlain(p');
    assert ([h] + [p])[0] == ([h'] + [p'])[0];
    assert ([h] + [p])[1] == ([h'] + [p'])[1];
  }

  lemma SplitThree(h: string, p: string, sig: string)
    requires NoDot(h) && NoDot(p) && NoDot(sig)
    ensures Split(SigningInput(h, p) + ['.'] + sig) == [h, p, sig]
  {
    assert SigningInput(h, p) + ['.'] + sig == h + ['.'] + (p + ['.'] + sig);
    SplitFirst(h, p + ['.'] + sig);
    SplitFirst(p, sig);
    SplitPlain(sig);
  }

  lemma UrlTextHasNoDot(s: string)
    requires UrlText(s)
    ensures NoDot(s)
  {
  }

  // ---------------------------------------------------------------------------------------------
  // The bot
  // ---------------------------------------------------------------------------------------------

  function PayloadBytes(c: Claims): seq<byte>
    requires Ascii(c.group) && Ascii(c.member)
  {
    PrintedClaimsAreAscii(c);
    ToBytes(PrintClaims(c))
  }

  function Payload(c: Claims): string
    requires Ascii(c.group) && Ascii(c.member)
  {
    Encode(PayloadBytes(c))
  }

  function Body(c: Claims): string
    requires Ascii(c.group) && Ascii(c.member)
  {
    SigningInput(HEADER, Payload(c))
  }

  function Sign(mac: Mac, c: Claims): string
    requires Ascii(c.group) && Ascii(c.member)
  {
    Body(c) + ['.'] + Encode(mac(Body(c)))
  }

  /** `json.Unmarshal` of the payload into the claims: the times are 64-bit integers. */
  function GoClaims(payload: seq<byte>): Option<Claims> {
    var text :- FromBytes(payload);
    var c :- ReadClaims(text);
    if Int64(c.issuedAt) && Int64(c.expires) && Int64(c.absolute) then Some(c) else None
  }

  function Parse(mac: Mac, token: string): Result<Claims, TokenError> {
    var parts := Split(token);
    if |parts| != 3 then Err(MalformedToken)
    else if parts[0] != HEADER then Err(UnexpectedHeader)
    else
      var sig := Decode(parts[2]);
      if sig.None? then Err(MalformedSignature)
      else if sig.value != mac(SigningInput(parts[0], parts[1])) then Err(BadSignature)
      else
        var payload := Decode(parts[1]);
        if payload.None? then Err(MalformedPayload)
        else
          var c := GoClaims(payload.value);
          if c.None? then Err(MalformedClaims)
          else if c.value.group == "" || c.value.member == "" then Err(IncompleteClaims)
          else Ok(c.value)
  }

  // ---------------------------------------------------------------------------------------------
  // The dashboard
  // ---------------------------------------------------------------------------------------------

  const TWO_53 := 0x20_0000_0000_0000

  /** The spacing of IEEE doubles around `n`, for integers. */
  function Spacing(n: nat): (u: nat)
    ensures u >= 1
  {
    if n < TWO_53 then 1 else 2 * Spacing(n / 2)
  }

  function RoundNat(n: nat): nat {
    var u := Spacing(n);
    var q, r := n / u, n % u;
    if 2 * r < u || (2 * r == u && q % 2 == 0) then q * u else (q + 1) * u
  }

  /** The integer a JavaScript number holds after reading the decimal `n`: round half to even. */
  function JsNumber(n: int): int {
    if n < 0 then -(RoundNat(-n) as int) else RoundNat(n)
  }

  function JsClaims(c: Claims): Claims {
    Claims(c.group, c.member, JsNumber(c.issuedAt), JsNumber(c.expires), JsNumber(c.absolute))
  }

  /** The claims in a payload segment, as the dashboard decodes it. */
  function TsPayload(segment: string): Option<Claims> {
    var payload :- TsDecode(segment);
    var text :- FromBytes(payload);
    ReadClaims(text)
  }

  /** `verifyToken`: the header is covered by the MAC and not looked at otherwise. */
  function VerifyToken(mac: Mac, token: string): Option<Claims> {
    var parts := Split(token);
    if |parts| != 3 then None
    else
      var sig :- TsDecode(parts[2]);
      if sig != mac(SigningInput(parts[0], parts[1])) then None
      else
        var c :- TsPayload(parts[1]);
        if c.group == "" || c.member == "" then None else Some(JsClaims(c))
  }

  lemma SmallNumbersAreExact(n: int)
    requires -TWO_53 < n < TWO_53
    ensures JsNumber(n) == n
  {
  }

  /** 2^53 + 1 is the first integer a JavaScript number cannot hold. */
  lemma FirstInexactNumber()
    ensures JsNumber(TWO_53) == TWO_53
    ensures JsNumber(TWO_53 + 1) == TWO_53
  {
  }

  // ---------------------------------------------------------------------------------------------
  // Properties
  // ---------------------------------------------------------------------------------------------

  predicate Complete(c: Claims) {
    c.group != "" && c.member != ""
  }

  lemma HeaderHasNoDot()
    ensures NoDot(HEADER)
  {
  }

  lemma PayloadText(c: Claims)
    requires Ascii(c.group) && Ascii(c.member)
    ensures FromBytes(PayloadBytes(c)) == Some(PrintClaims(c))
    ensures ReadClaims(PrintClaims(c)) == Some(c)
  {
    PrintedClaimsAreAscii(c);
    FromToBytes(PrintClaims(c));
    ReadPrintedClaims(c);
  }

  /** What each side reads out of a payload segment the bot wrote. */
  lemma PayloadDecodes(c: Claims)
    requires Ascii(c.group) && Ascii(c.member)
    ensures NoDot(Payload(c))
    ensures Decode(Payload(c)) == Some(PayloadBytes(c))
    ensures GoClaims(PayloadBytes(c)) == if Printable(c) then Some(c) else None
    ensures TsPayload(Payload(c)) == Some(c)
  {
    var bytes := PayloadBytes(c);
    DecodeEncode(bytes);
    DecodersAgree(Encode(bytes));
    UrlTextHasNoDot(Encode(bytes));
    PayloadText(c);
  }

  /** The segments of a signed token, and what the two signature decoders make of the last. */
  lemma SignedSegments(mac: Mac, c: Claims)
    requires Ascii(c.group) && Ascii(c.member)
    ensures Split(Sign(mac, c)) == [HEADER, Payload(c), Encode(mac(Body(c)))]
    ensures Decode(Encode(mac(Body(c)))) == Some(mac(Body(c)))
    ensures TsDecode(Encode(mac(Body(c)))) == Some(mac(Body(c)))
  {
    var sig := Encode(mac(Body(c)));
    DecodeEncode(mac(Body(c)));
    DecodersAgree(sig);
    UrlTextHasNoDot(sig);
    assert NoDot(Payload(c)) by {
      PayloadDecodes(c);
    }
    HeaderHasNoDot();
    SplitThree(HEADER, Payload(c), sig);
  }

  /** A token whose MAC input is the body of `c` has exactly the segments of that body. */
  lemma BodySegments(token: string, c: Claims)
    requires Ascii(c.group) && Ascii(c.member)
    requires var parts := Split(token); |parts| == 3 && SigningInput(parts[0], parts[1]) == Body(c)
    ensures Split(token)[0] == HEADER && Split(token)[1] == Payload(c)
  {
    var parts := Split(token);
    JoinSplit(token);
    HeaderHasNoDot();
    UrlTextHasNoDot(Payload(c)) by {
      DecodeEncode(PayloadBytes(c));
    }
    assert NoDot(parts[0]) && NoDot(parts[1]);
    SigningInputIsInjective(parts[0], parts[1], HEADER, Payload(c));
  }

  /** Such a token parses to `c` or to an error, whatever its signature segment looks like. */
  lemma BodyDeterminesClaims(mac: Mac, token: string, c: Claims)
    requires Ascii(c.group) && Ascii(c.member)
    requires var parts := Split(token); |parts| == 3 && SigningInput(parts[0], parts[1]) == Body(c)
    ensures Parse(mac, token).Ok? ==> Parse(mac, token).value == c && Complete(c)
  {
    BodySegments(token, c);
    var payload := Decode(Payload(c));
    assert payload.Some? && (GoClaims(payload.value).Some? ==> GoClaims(payload.value).value == c) by {
      PayloadDecodes(c);
    }
  }

  /** And on the dashboard to `c` as JavaScript holds it, or to nothing. */
  lemma BodyDeterminesTsClaims(mac: Mac, token: string, c: Claims)
    requires Ascii(c.group) && Ascii(c.member)
    requires var parts := Split(token); |parts| == 3 && SigningInput(parts[0], parts[1]) == Body(c)
    ensures VerifyToken(mac, token).Some? ==> VerifyToken(mac, token).value == JsClaims(c) && Complete(c)
  {
    BodySegments(token, c);
    assert TsPayload(Payload(c)) == Some(c) by {
      PayloadDecodes(c);
    }
  }

  /** The bot reads back every token it signs. */
  lemma ParseSigned(mac: Mac, c: Claims)
    requires Printable(c) && Complete(c)
    ensures Parse(mac, Sign(mac, c)) == Ok(c)
  {
    SignedSegments(mac, c);
    PayloadDecodes(c);
  }

  /** The dashboard reads back the same claims exactly when its numbers can hold the times. */
  lemma VerifyTokenSigned(mac: Mac, c: Claims)
    requires Printable(c) && Complete(c)
    ensures VerifyToken(mac, Sign(mac, c)) == Some(JsClaims(c))
    ensures VerifyToken(mac, Sign(mac, c)) == Some(c)
        <==> JsNumber(c.issuedAt) == c.issuedAt && JsNumber(c.expires) == c.expires && JsNumber(c.absolute) == c.absolute
  {
    SignedSegments(mac, c);
    PayloadDecodes(c);
  }

  /** Claims without a group or member are refused although correctly signed. */
  lemma IncompleteClaimsAreRefused(mac: Mac, c: Claims)
    requires Printable(c) && !Complete(c)
    ensures Parse(mac, Sign(mac, c)) == Err(IncompleteClaims)
    ensures VerifyToken(mac, Sign(mac, c)) == None
  {
    SignedSegments(mac, c);
    PayloadDecodes(c);
  }

  /** Different claims have different bodies, so a MAC over one says nothing of the other. */
  lemma BodyIsInjective(c: Claims, c': Claims)
    requires Ascii(c.group) && Ascii(c.member) && Ascii(c'.group) && Ascii(c'.member)
    requires Body(c) == Body(c')
    ensures c == c'
  {
    HeaderHasNoDot();
    PayloadDecodes(c);
    PayloadDecodes(c');
    SigningInputIsInjective(HEADER, Payload(c), HEADER, Payload(c'));
  }

  /** The signature segment carries the MAC of the other two, under either side's decoder. */
  predicate SignatureMatches(mac: Mac, token: string) {
    var parts := Split(token);
    && |parts| == 3
    && var expected := Some(mac(SigningInput(parts[0], parts[1])));
       Decode(parts[2]) == expected || TsDecode(parts[2]) == expected
  }

  /** The ideal-MAC hypothesis about one presented token: a matching signature can only be over a
      body that was signed with the key. */
  ghost predicate Unforged(mac: Mac, signed: set<Claims>, token: string) {
    SignatureMatches(mac, token) ==>
      var parts := Split(token);
      exists c :: c in signed && Ascii(c.group) && Ascii(c.member) && SigningInput(parts[0], parts[1]) == Body(c)
  }

  /** Under an ideal MAC each side accepts nothing but claims that were signed. */
  lemma AcceptedWasSigned(mac: Mac, signed: set<Claims>, token: string)
    requires Unforged(mac, signed, token)
    ensures Parse(mac, token).Ok? ==> Parse(mac, token).value in signed && Complete(Parse(mac, token).value)
    ensures VerifyToken(mac, token).Some? ==>
      exists c :: c in signed && Complete(c) && VerifyToken(mac, token).value == JsClaims(c)
  {
    if Parse(mac, token).Ok? || VerifyToken(mac, token).Some? {
      var parts := Split(token);
      assert SignatureMatches(mac, token);
      var c :| c in signed && Ascii(c.group) && Ascii(c.member) && SigningInput(parts[0], parts[1]) == Body(c);
      BodyDeterminesClaims(mac, token, c);
      BodyDeterminesTsClaims(mac, token, c);
    }
  }

  /** And both sides read the same claims, up to the dashboard's numbers. */
  lemma BothSidesReadTheSame(mac: Mac, signed: set<Claims>, token: string)
    requires Unforged(mac, signed, token) && Parse(mac, token).Ok? && VerifyToken(mac, token).Some?
    ensures VerifyToken(mac, token).value == JsClaims(Parse(mac, token).value)
  {
    var parts := Split(token);
    assert SignatureMatches(mac, token);
    var c :| c in signed && Ascii(c.group) && Ascii(c.member) && SigningInput(parts[0], parts[1]) == Body(c);
    BodyDeterminesClaims(mac, token, c);
    BodyDeterminesTsClaims(mac, token, c);
  }

  // ---------------------------------------------------------------------------------------------
  // What is accepted, exactly
  // ---------------------------------------------------------------------------------------------

  lemma {:induction false} BytesOf(s: string)
    requires Ascii(s)
    ensures |ToBytes(s)| == |s| && forall i :: 0 <= i < |s| ==> ToBytes(s)[i] == s[i] as int
  {
    if s != "" {
      BytesOf(s[1..]);
    }
  }

  /** Three characters and their four, ahead of the rest. */
  lemma HeaderGroup(text: string, code: string, rest: string, restCode: string)
    requires |text| == 3 && |code| == 4 && Ascii(text) && Ascii(rest) && Encode(ToBytes(rest)) == restCode
    requires var g := Group(text[0] as int, text[1] as int, text[2] as int);
      forall i :: 0 <= i < 4 ==> code[i] == UrlChar(g[i])
    ensures Ascii(text + rest) && Encode(ToBytes(text + rest)) == code + restCode
  {
    ToBytesConcat(text, rest);
    BytesOf(text);
    EncodeThree(ToBytes(text), ToBytes(rest));
    assert ToBytes(text)[3..] == [];
    assert Encode(ToBytes(text)) == code;
  }

  /** The header's first twelve characters, ahead of the rest. */
  lemma HeaderBegins(t: string, code: string)
    requires Ascii(t) && Encode(ToBytes(t)) == code
    ensures var text := "{\"a" + ("lg\"" + (":\"H" + ("S25" + t)));
      Ascii(text) && Encode(ToBytes(text)) == "eyJh" + ("bGci" + ("OiJI" + ("UzI1" + code)))
  {
    HeaderGroup("S25", "UzI1", t, code);
    HeaderGroup(":\"H", "OiJI", "S25" + t, "UzI1" + code);
    HeaderGroup("lg\"", "bGci", ":\"H" + ("S25" + t), "OiJI" + ("UzI1" + code));
    HeaderGroup("{\"a", "eyJh", "lg\"" + (":\"H" + ("S25" + t)), "bGci" + ("OiJI" + ("UzI1" + code)));
  }

  /** And its last fifteen. */
  lemma HeaderEnds(nothing: string)
    requires nothing == ""
    ensures var text := "6\"," + ("\"ty" + ("p\":" + ("\"JW" + ("T\"}" + nothing))));
      Ascii(text) && Encode(ToBytes(text)) == "NiIs" + ("InR5" + ("cCI6" + ("IkpX" + ("VCJ9" + nothing))))
  {
    HeaderGroup("T\"}", "VCJ9", nothing, nothing);
    HeaderGroup("\"JW", "IkpX", "T\"}" + nothing, "VCJ9" + nothing);
    HeaderGroup("p\":", "cCI6", "\"JW" + ("T\"}" + nothing), "IkpX" + ("VCJ9" + nothing));
    HeaderGroup("\"ty", "InR5", "p\":" + ("\"JW" + ("T\"}" + nothing)), "cCI6" + ("IkpX" + ("VCJ9" + nothing)));
    HeaderGroup("6\",", "NiIs", "\"ty" + ("p\":" + ("\"JW" + ("T\"}" + nothing))),
                "InR5" + ("cCI6" + ("IkpX" + ("VCJ9" + nothing))));
  }

  lemma HeaderTextPieces()
    ensures "{\"alg\":\"HS256\",\"typ\":\"JWT\"}"
      == "{\"a" + ("lg\"" + (":\"H" + ("S25" + ("6\"," + ("\"ty" + ("p\":" + ("\"JW" + ("T\"}" + ""))))))))
  {
  }

  lemma HeaderPieces()
    ensures HEADER == "eyJh" + ("bGci" + ("OiJI" + ("UzI1" + ("NiIs" + ("InR5" + ("cCI6" + ("IkpX" + ("VCJ9" + ""))))))))
  {
  }

  /** The fixed header is the encoding of {"alg":"HS256","typ":"JWT"}. */
  lemma HeaderIsHs256(header: string, text: string)
    requires header == HEADER && text == "{\"alg\":\"HS256\",\"typ\":\"JWT\"}"
    ensures Ascii(text) && header == Encode(ToBytes(text)) && Decode(header) == Some(ToBytes(text))
  {
    var nothing := text[..0];
    HeaderTextPieces();
    HeaderPieces();
    HeaderEnds(nothing);
    HeaderBegins("6\"," + ("\"ty" + ("p\":" + ("\"JW" + ("T\"}" + nothing)))),
                 "NiIs" + ("InR5" + ("cCI6" + ("IkpX" + ("VCJ9" + nothing)))));
    DecodeEncode(ToBytes(text));
  }

  /** A token over the body of printable, complete claims is accepted by the bot exactly when its third
      segment decodes to the MAC, in whatever text, and then as those claims. */
  lemma AcceptedExactlyByItsMac(mac: Mac, token: string, c: Claims)
    requires Printable(c) && Complete(c)
    requires var parts := Split(token); |parts| == 3 && SigningInput(parts[0], parts[1]) == Body(c)
    ensures Parse(mac, token) == Ok(c) <==> Decode(Split(token)[2]) == Some(mac(Body(c)))
    ensures Parse(mac, token).Err? <==> Decode(Split(token)[2]) != Some(mac(Body(c)))
    ensures VerifyToken(mac, token) ==
      if TsDecode(Split(token)[2]) == Some(mac(Body(c))) then Some(JsClaims(c)) else None
  {
    BodySegments(token, c);
    PayloadDecodes(c);
  }

  /** A multiple of the spacing, no further off than half of it, and the even one of two such. */
  predicate Nearest(n: nat, u: int, q: nat) {
    && -u <= 2 * (q * u - n) <= u
    && (2 * (q * u - n) == u || 2 * (n - q * u) == u ==> q % 2 == 0)
  }

  lemma RoundsToNearest(n: nat, u: int, q: nat, r: int)
    requires u > 0 && n == q * u + r && 0 <= r < u
    ensures 2 * r < u || (2 * r == u && q % 2 == 0) ==> Nearest(n, u, q)
    ensures !(2 * r < u || (2 * r == u && q % 2 == 0)) ==> Nearest(n, u, q + 1)
  {
    assert (q + 1) * u == q * u + u;
  }

  /** Reading a decimal rounds it to a nearest multiple of the spacing of doubles around it. */
  lemma JsNumberIsNearest(n: nat) returns (q: nat)
    ensures JsNumber(n) == q * Spacing(n) && Nearest(n, Spacing(n), q)
  {
    var u := Spacing(n);
    var k, r := n / u, n % u;
    RoundsToNearest(n, u, k, r);
    q := if 2 * r < u || (2 * r == u && k % 2 == 0) then k else k + 1;
    assert RoundNat(n) == q * u;
  }

  /** The dashboard takes any header the MAC covers, the bot only its own. */
  lemma OnlyTheBotReadsTheHeader(mac: Mac, header: string, c: Claims)
    requires Printable(c) && Complete(c) && NoDot(header)
    ensures var token := SigningInput(header, Payload(c)) + ['.'] + Encode(mac(SigningInput(header, Payload(c))));
      && VerifyToken(mac, token) == Some(JsClaims(c))
      && (Parse(mac, token).Ok? <==> header == HEADER)
  {
    var sig := mac(SigningInput(header, Payload(c)));
    DecodeEncode(sig);
    DecodersAgree(Encode(sig));
    UrlTextHasNoDot(Encode(sig));
    PayloadDecodes(c);
    SplitThree(header, Payload(c), Encode(sig));
  }
}
