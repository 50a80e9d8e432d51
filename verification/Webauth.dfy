/**
 Membership-gated login (webauth/config.go, webauth/webauth.go): the configuration's defaults, the
 decisions each call makes, and the calls themselves over the shared store. What a call reads from
 outside (clock, randomness, WhatsApp's answer, statement faults) is a parameter.
 */
module Webauth {
  import opened Wrappers
  import opened Time
  import opened Kv
  import opened Transport
  import opened Json
  import Token
  import Base64Url

  // ---------------------------------------------------------------------------------------------
  // Configuration
  // ---------------------------------------------------------------------------------------------

  const DEFAULT_LINK_TTL := 15 * MINUTE
  const DEFAULT_SESSION_TTL := 48 * HOUR
  const DEFAULT_RECHECK_INTERVAL := HOUR

  /** The knobs as a caller leaves them; an unset duration is zero, an unset flag is None. */
  datatype Knobs = Knobs(
    dashboardUrl: string, apiToken: string, signingKey: string,
    linkTtl: int, linkSingleUse: Option<bool>, sessionTtl: int, recheck: int)

  datatype ConfigError = MissingUrl | BadUrl | MissingApiToken | MissingSigningKey | SharedSecret | RecheckTooLong

  function Or(d: int, default: int): int {
    if d <= 0 then default else d
  }

  /** Everything the protocol relies on in a configuration that was accepted. */
  predicate Sound(k: Knobs) {
    && k.apiToken != "" && k.signingKey != "" && k.apiToken != k.signingKey
    && 0 < k.linkTtl && 0 < k.recheck <= k.sessionTtl
    && k.linkSingleUse.Some?
  }

  /** Unicode white space. */
  predicate Space(c: char) {
    || '\t' <= c <= '\r' || c == ' ' || c == '\U{0085}' || c == '\U{00A0}' || c == '\U{1680}'
    || '\U{2000}' <= c <= '\U{200A}' || c == '\U{2028}' || c == '\U{2029}' || c == '\U{202F}' || c == '\U{205F}'
    || c == '\U{3000}'
  }

  /** `strings.TrimSpace` leaves nothing. */
  predicate Blank(s: string) {
    forall i :: 0 <= i < |s| ==> Space(s[i])
  }

  predicate EndsInSlash(s: string) {
    s != "" && s[|s| - 1] == '/'
  }

  /** `withDefaults`. `absolute` is what parsing the URL says of it. A configuration is
      refused exactly for a bad URL, for missing or equal secrets, or for a recheck interval longer
      than the session; one that is accepted is sound and keeps every knob that was set. */
  method WithDefaults(k: Knobs, absolute: bool) returns (r: Result<Knobs, ConfigError>)
    ensures r.Ok? <==>
      (!Blank(k.dashboardUrl) && absolute && k.apiToken != "" && k.signingKey != "" && k.apiToken != k.signingKey
       && Or(k.recheck, DEFAULT_RECHECK_INTERVAL) <= Or(k.sessionTtl, DEFAULT_SESSION_TTL))
    ensures r == Err(MissingUrl) <==> Blank(k.dashboardUrl)
    ensures r.Ok? ==> Sound(r.value)
    ensures r.Ok? ==> r.value.apiToken == k.apiToken && r.value.signingKey == k.signingKey
    ensures r.Ok? ==> r.value.linkTtl == if k.linkTtl > 0 then k.linkTtl else 900 * 1_000_000_000
    ensures r.Ok? ==> r.value.sessionTtl == if k.sessionTtl > 0 then k.sessionTtl else 172800 * 1_000_000_000
    ensures r.Ok? ==> r.value.recheck == if k.recheck > 0 then k.recheck else 3600 * 1_000_000_000
    ensures r.Ok? ==> r.value.linkSingleUse == if k.linkSingleUse.None? then Some(true) else k.linkSingleUse
    ensures r.Ok? ==> k.dashboardUrl == r.value.dashboardUrl + (if EndsInSlash(k.dashboardUrl) then "/" else "")
  {
    if Blank(k.dashboardUrl) {
      return Err(MissingUrl);
    }
    if !absolute {
      return Err(BadUrl);
    }
    if k.apiToken == "" {
      return Err(MissingApiToken);
    }
    if k.signingKey == "" {
      return Err(MissingSigningKey);
    }
    if k.apiToken == k.signingKey {
      return Err(SharedSecret);
    }
    var c := k;
    if EndsInSlash(c.dashboardUrl) {
      c := c.(dashboardUrl := c.dashboardUrl[..|c.dashboardUrl| - 1]);
      assert c.dashboardUrl + "/" == k.dashboardUrl;
    }
    if c.linkTtl <= 0 {
      c := c.(linkTtl := DEFAULT_LINK_TTL);
    }
    if c.sessionTtl <= 0 {
      c := c.(sessionTtl := DEFAULT_SESSION_TTL);
    }
    if c.recheck <= 0 {
      c := c.(recheck := DEFAULT_RECHECK_INTERVAL);
    }
    if c.linkSingleUse.None? {
      c := c.(linkSingleUse := Some(true));
    }
    if c.recheck > c.sessionTtl {
      return Err(RecheckTooLong);
    }
    return Ok(c);
  }

  /** What the calls use of an accepted configuration, together with the textual form of JIDs, which
      belongs to the WhatsApp library. */
  datatype Config = Config(
    linkTtl: int, sessionTtl: int, recheck: int, singleUse: bool,
    format: JID -> string, parse: string -> Option<JID>)
  {
    predicate Valid() {
      0 < linkTtl && 0 < recheck <= sessionTtl
    }

    /** The library parses back what it printed for `j`. */
    predicate RoundTrips(j: JID) {
      parse(format(j)) == Some(j) && format(j) != ""
    }

    /** JIDs are written in ASCII. */
    ghost predicate AsciiJids() {
      forall j :: Ascii(format(j))
    }
  }

  function ConfigOf(k: Knobs, format: JID -> string, parse: string -> Option<JID>): (c: Config)
    requires Sound(k)
    ensures c.Valid() && c.linkTtl == k.linkTtl && c.sessionTtl == k.sessionTtl && c.recheck == k.recheck
    ensures c.singleUse == k.linkSingleUse.value && c.format == format && c.parse == parse
  {
    Config(k.linkTtl, k.sessionTtl, k.recheck, k.linkSingleUse == Some(true), format, parse)
  }

  // ---------------------------------------------------------------------------------------------
  // Decisions
  // ---------------------------------------------------------------------------------------------

  const NONCE_PREFIX := "webauth:nonce:"

  function NewRecord(cfg: Config, group: JID, member: JID, now: int): NonceRecord {
    NonceRecord(cfg.format(group), cfg.format(member), Unix(now + cfg.linkTtl))
  }

  /** A link is good through the whole of its expiry second. */
  predicate LinkLive(rec: NonceRecord, now: int) {
    Unix(now) <= rec.expires
  }

  function ParsePair(cfg: Config, group: string, member: string): Option<(JID, JID)> {
    var g :- cfg.parse(group);
    var m :- cfg.parse(member);
    Some((g, m))
  }

  /** `mint`: `absolute` is an instant. */
  function MintClaims(cfg: Config, group: JID, member: JID, now: int, absolute: int): Claims {
    Claims(cfg.format(group), cfg.format(member), Unix(now), Unix(now + cfg.recheck), Unix(absolute))
  }

  ghost predicate Writable(c: Option<Claims>) {
    c.Some? ==> Ascii(c.value.group) && Ascii(c.value.member)
  }

  function RedeemClaims(cfg: Config, rec: NonceRecord, now: int, w: World): (c: Option<Claims>)
    ensures cfg.AsciiJids() ==> Writable(c)
  {
    if !LinkLive(rec, now) then None
    else
      var (g, m) :- ParsePair(cfg, rec.group, rec.member);
      if Answer(w, g, m) == Ok(true) then Some(MintClaims(cfg, g, m, now, now + cfg.sessionTtl)) else None
  }

  function RefreshClaims(cfg: Config, c: Claims, now: int, w: World): (r: Option<Claims>)
    ensures cfg.AsciiJids() ==> Writable(r)
  {
    if Unix(now) >= c.absolute then None
    else
      var (g, m) :- ParsePair(cfg, c.group, c.member);
      if Answer(w, g, m) == Ok(true) then Some(MintClaims(cfg, g, m, now, c.absolute * SECOND)) else None
  }

  /** `Verify`'s clock test. */
  predicate Unexpired(c: Claims, now: int) {
    Unix(now) < c.expires && Unix(now) < c.absolute
  }

  // ---------------------------------------------------------------------------------------------
  // The calls
  // ---------------------------------------------------------------------------------------------

  /** Denied is the one error of every redeem, refresh and verify failure. */
  datatype AuthError = Denied | MintFailed

  function Outcome(mac: Token.Mac, c: Option<Claims>): (r: Result<string, AuthError>)
    requires Writable(c)
    ensures c.Some? ==> r == Ok(Token.Sign(mac, c.value))
    ensures c.None? ==> r == Err(Denied)
  {
    if c.Some? then Ok(Token.Sign(mac, c.value)) else Err(Denied)
  }

  /** Claims that Redeem signs for a stored text. */
  function RedeemStored(cfg: Config, stored: Option<string>, now: int, w: World): (c: Option<Claims>)
    ensures cfg.AsciiJids() ==> Writable(c)
  {
    var text :- stored;
    var rec :- ReadRecord(text);
    RedeemClaims(cfg, rec, now, w)
  }

  class Auth {
    const cfg: Config
    const mac: Token.Mac
    const dashboardUrl: string
    const kv: KV

    constructor (cfg: Config, mac: Token.Mac, dashboardUrl: string, kv: KV)
      ensures this.cfg == cfg && this.mac == mac && this.dashboardUrl == dashboardUrl && this.kv == kv
    {
      this.cfg, this.mac, this.dashboardUrl, this.kv := cfg, mac, dashboardUrl, kv;
    }

    method MintLink(group: JID, member: JID,
                    sweepSecond: int, sweepFault: Fault, random: Option<seq<Base64Url.byte>>,
                    now: int, setSecond: int, setFault: Fault)
      returns (r: Result<string, AuthError>)
      requires cfg.Valid() && cfg.AsciiJids()
      modifies kv
      ensures !Usable(group, member) ==> r.Err? && kv.table == old(kv.table)
      ensures Usable(group, member) ==>
        var swept := if sweepFault == FailedBefore then old(kv.table)
                     else Sweep(old(kv.table), NONCE_PREFIX, cfg.linkTtl, sweepSecond);
        if random.None? then r.Err? && kv.table == swept
        else
          var nonce := Base64Url.Encode(random.value);
          && (r.Ok? <==> setFault == NoFault)
          && (r.Ok? ==> r.value == dashboardUrl + "/auth?t=" + nonce)
          && kv.table == if setFault == FailedBefore then swept
                         else Put(swept, NONCE_PREFIX + nonce,
                                  PrintRecord(NonceRecord(cfg.format(group), cfg.format(member), Unix(now + cfg.linkTtl))), setSecond)
    {
      if group.IsEmpty() || member.IsEmpty() || member.user == "" {
        return Err(MintFailed);
      }
      var sweep := kv.DeleteExpired(NONCE_PREFIX, cfg.linkTtl, sweepSecond, sweepFault, false);
      if random.None? {
        return Err(MintFailed);
      }
      var nonce := Base64Url.Encode(random.value);
      var rec := NonceRecord(cfg.format(group), cfg.format(member), Unix(now + cfg.linkTtl));
      var stored := kv.Set(NONCE_PREFIX + nonce, PrintRecord(rec), setSecond, setFault);
      if stored.Err? {
        return Err(MintFailed);
      }
      return Ok(dashboardUrl + "/auth?t=" + nonce);
    }

    /** `w` is the world when the membership query is answered. */
    method Redeem(nonce: string, fault: Fault, now: int, w: World) returns (r: Result<string, AuthError>)
      requires cfg.AsciiJids()
      modifies kv
      ensures kv.table == if nonce == "" || !cfg.singleUse || fault == FailedBefore then old(kv.table)
                          else Remove(old(kv.table), NONCE_PREFIX + nonce)
      ensures nonce == "" || fault != NoFault ==> r == Err(Denied)
      ensures nonce != "" && fault == NoFault ==>
        r == Outcome(mac, RedeemStored(cfg, Lookup(old(kv.table), NONCE_PREFIX + nonce), now, w))
    {
      if nonce == "" {
        return Err(Denied);
      }
      var key := NONCE_PREFIX + nonce;
      var raw;
      if cfg.singleUse {
        raw := kv.Consume(key, fault);
      } else {
        raw := kv.Get(key, fault);
      }
      if raw.Err? {
        return Err(Denied);
      }
      if raw.value.None? {
        return Err(Denied);
      }
      var rec := ReadRecord(raw.value.value);
      if rec.None? {
        return Err(Denied);
      }
      var claims := RedeemRecord(rec.value, now, w);
      if claims.None? {
        return Err(Denied);
      }
      return Ok(Token.Sign(mac, claims.value));
    }

    /** The part of Redeem after the record has been read. */
    method RedeemRecord(rec: NonceRecord, now: int, w: World) returns (c: Option<Claims>)
      ensures c == RedeemClaims(cfg, rec, now, w)
    {
      if Unix(now) > rec.expires {
        return None;
      }
      var group := cfg.parse(rec.group);
      if group.None? {
        return None;
      }
      var member := cfg.parse(rec.member);
      if member.None? {
        return None;
      }
      var ok := AssertMember(group.value, member.value, w);
      if !ok {
        return None;
      }
      return Some(MintClaims(cfg, group.value, member.value, now, now + cfg.sessionTtl));
    }

    /** A failed query denies like an answer of no. */
    method AssertMember(group: JID, member: JID, w: World) returns (ok: bool)
      ensures ok <==> Answer(w, group, member) == Ok(true)
    {
      var answer := IsMember(w, group, member);
      if answer.Err? {
        return false;
      }
      return answer.value;
    }

    method Refresh(token: string, now: int, w: World) returns (r: Result<string, AuthError>)
      requires cfg.AsciiJids()
      ensures Token.Parse(mac, token).Err? ==> r == Err(Denied)
      ensures Token.Parse(mac, token).Ok? ==> r == Outcome(mac, RefreshClaims(cfg, Token.Parse(mac, token).value, now, w))
    {
      var claims := Token.Parse(mac, token);
      if claims.Err? {
        return Err(Denied);
      }
      var renewed := RefreshParsed(claims.value, now, w);
      if renewed.None? {
        return Err(Denied);
      }
      return Ok(Token.Sign(mac, renewed.value));
    }

    /** The part of Refresh after the token has been parsed. */
    method RefreshParsed(claims: Claims, now: int, w: World) returns (c: Option<Claims>)
      ensures c == RefreshClaims(cfg, claims, now, w)
    {
      if Unix(now) >= claims.absolute {
        return None;
      }
      var group := cfg.parse(claims.group);
      if group.None? {
        return None;
      }
      var member := cfg.parse(claims.member);
      if member.None? {
        return None;
      }
      var ok := AssertMember(group.value, member.value, w);
      if !ok {
        return None;
      }
      return Some(MintClaims(cfg, group.value, member.value, now, claims.absolute * SECOND));
    }

    method Verify(token: string, now: int) returns (r: Result<Claims, AuthError>)
      ensures r.Ok? <==>
        && Token.Parse(mac, token).Ok?
        && var c := Token.Parse(mac, token).value;
           Unix(now) < c.expires && Unix(now) < c.absolute
      ensures r.Ok? ==> r.value == Token.Parse(mac, token).value
      ensures r.Err? ==> r.error == Denied
    {
      var claims := Token.Parse(mac, token);
      if claims.Err? {
        return Err(Denied);
      }
      if Unix(now) >= claims.value.expires || Unix(now) >= claims.value.absolute {
        return Err(Denied);
      }
      return Ok(claims.value);
    }
  }

  // ---------------------------------------------------------------------------------------------
  // Facts about single decisions
  // ---------------------------------------------------------------------------------------------

  /** The documented "exp is IssuedAt + RecheckInterval" holds to the second exactly for intervals
      of whole seconds. */
  lemma ExpiryIsIssuedPlusRecheck(cfg: Config, group: JID, member: JID)
    requires cfg.Valid()
    ensures (forall now, absolute :: var c := MintClaims(cfg, group, member, now, absolute);
               c.expires * SECOND == c.issuedAt * SECOND + cfg.recheck)
        <==> WholeSeconds(cfg.recheck)
  {
    if WholeSeconds(cfg.recheck) {
      forall now, absolute
        ensures var c := MintClaims(cfg, group, member, now, absolute);
          c.expires * SECOND == c.issuedAt * SECOND + cfg.recheck
      {
        UnixPlusWhole(now, cfg.recheck);
      }
    } else {
      var c := MintClaims(cfg, group, member, 0, 0);
      assert c.expires * SECOND != c.issuedAt * SECOND + cfg.recheck;
    }
  }

  /** A stored text is the record `rec` of a live link for (g, m), and the group says yes. */
  predicate Redeemable(cfg: Config, stored: Option<string>, now: int, w: World, rec: NonceRecord, g: JID, m: JID) {
    && stored.Some? && ReadRecord(stored.value) == Some(rec) && Unix(now) <= rec.expires
    && cfg.parse(rec.group) == Some(g) && cfg.parse(rec.member) == Some(m) && Answer(w, g, m) == Ok(true)
  }

  /** Redeem signs exactly for such a text, and what it signs, field by field. */
  lemma RedeemSigns(cfg: Config, stored: Option<string>, now: int, w: World)
    ensures RedeemStored(cfg, stored, now, w).Some? <==> exists rec, g, m :: Redeemable(cfg, stored, now, w, rec, g, m)
    ensures forall rec, g, m :: Redeemable(cfg, stored, now, w, rec, g, m) ==>
      RedeemStored(cfg, stored, now, w)
        == Some(Claims(cfg.format(g), cfg.format(m), Unix(now), Unix(now + cfg.recheck), Unix(now + cfg.sessionTtl)))
  {
    if RedeemStored(cfg, stored, now, w).Some? {
      var rec := ReadRecord(stored.value).value;
      assert Redeemable(cfg, stored, now, w, rec, cfg.parse(rec.group).value, cfg.parse(rec.member).value);
    }
  }

  predicate Refreshable(cfg: Config, c: Claims, now: int, w: World, g: JID, m: JID) {
    && Unix(now) < c.absolute
    && cfg.parse(c.group) == Some(g) && cfg.parse(c.member) == Some(m) && Answer(w, g, m) == Ok(true)
  }

  /** Refresh signs exactly below the ceiling, for JIDs it can read and a yes of the group; and what it signs. */
  lemma RefreshSigns(cfg: Config, c: Claims, now: int, w: World)
    ensures RefreshClaims(cfg, c, now, w).Some? <==> exists g, m :: Refreshable(cfg, c, now, w, g, m)
    ensures forall g, m :: Refreshable(cfg, c, now, w, g, m) ==>
      RefreshClaims(cfg, c, now, w)
        == Some(Claims(cfg.format(g), cfg.format(m), Unix(now), Unix(now + cfg.recheck), c.absolute))
  {
    assert Unix(c.absolute * SECOND) == c.absolute;
    if RefreshClaims(cfg, c, now, w).Some? {
      assert Refreshable(cfg, c, now, w, cfg.parse(c.group).value, cfg.parse(c.member).value);
    }
  }

  /** From MintLink's store to Redeem's answer, through the stored text: the link minted at `minted`
      yields a session exactly when it is redeemed within its lifetime, to the second, while the
      group says yes, for JIDs the library reads back. */
  lemma StoredLinkRedeems(cfg: Config, group: JID, member: JID, minted: int, now: int, w: World)
    requires cfg.RoundTrips(group) && cfg.RoundTrips(member)
    requires PrintableRecord(NewRecord(cfg, group, member, minted))
    ensures RedeemStored(cfg, Some(PrintRecord(NewRecord(cfg, group, member, minted))), now, w)
         == if Unix(now) <= Unix(minted + cfg.linkTtl) && Answer(w, group, member) == Ok(true)
            then Some(MintClaims(cfg, group, member, now, now + cfg.sessionTtl)) else None
  {
    StoredTextIsTheRecord(cfg, NewRecord(cfg, group, member, minted), now, w);
    MintedRecordRedeems(cfg, group, member, minted, now, w);
  }

  lemma MintedRecordRedeems(cfg: Config, group: JID, member: JID, minted: int, now: int, w: World)
    requires cfg.RoundTrips(group) && cfg.RoundTrips(member)
    ensures RedeemClaims(cfg, NewRecord(cfg, group, member, minted), now, w)
         == if Unix(now) <= Unix(minted + cfg.linkTtl) && Answer(w, group, member) == Ok(true)
            then Some(MintClaims(cfg, group, member, now, now + cfg.sessionTtl)) else None
  {
  }

  lemma StoredTextIsTheRecord(cfg: Config, rec: NonceRecord, now: int, w: World)
    requires PrintableRecord(rec)
    ensures RedeemStored(cfg, Some(PrintRecord(rec)), now, w) == RedeemClaims(cfg, rec, now, w)
  {
    var text := PrintRecord(rec);
    assert ReadRecord(text) == Some(rec) by {
      ReadPrintedRecord(rec);
    }
  }

  lemma UnixPlusWhole(t: int, d: int)
    requires WholeSeconds(d)
    ensures Unix(t + d) == Unix(t) + d / SECOND
    ensures d == d / SECOND * SECOND
  {
  }
}
