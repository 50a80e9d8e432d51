/**
 The dashboard's per-request check (examples/webauth-dev/web/middleware.ts), and what it adds up to
 together with the bot: a request is admitted on the cookie alone while its token is fresh, and
 otherwise on a token the bot has just refreshed.
*/
module Dashboard {
  import opened Wrappers
  import opened Time
  import opened Kv
  import opened Json
  import opened Webauth
  import opened Protocol
  import opened Invariants
  import Guarantees
  import Token

  /** What comes back from POST /webauth/refresh. */
  datatype Fetched = Unreachable | Refused | Session(token: string)

  /** Redirect to /denied, or let the request through, possibly replacing the session cookie. */
  datatype Response = ToDenied | Through(cookie: Option<string>)

  /** The dashboard's own freshness test; unlike Verify it does not look at the ceiling. */
  predicate FreshLocally(c: Claims, now: int) {
    c.expires > Unix(now)
  }

  predicate Admits(mac: Token.Mac, cookie: Option<string>, now: int, fetched: Fetched) {
    && cookie.Some? && cookie.value != "" && Token.VerifyToken(mac, cookie.value).Some?
    && (FreshLocally(Token.VerifyToken(mac, cookie.value).value, now) || fetched.Session?)
  }

  /** What the dashboard answers. */
  function Respond(mac: Token.Mac, cookie: Option<string>, now: int, fetched: Fetched): (out: Response)
    ensures out.Through? <==> Admits(mac, cookie, now, fetched)
  {
    if cookie.None? || cookie.value == "" || Token.VerifyToken(mac, cookie.value).None? then ToDenied
    else if FreshLocally(Token.VerifyToken(mac, cookie.value).value, now) then Through(None)
    else if fetched.Session? then Through(Some(fetched.token))
    else ToDenied
  }

  method Middleware(mac: Token.Mac, cookie: Option<string>, now: int, fetched: Fetched) returns (out: Response)
    ensures out == Respond(mac, cookie, now, fetched)
    ensures out.Through? <==> Admits(mac, cookie, now, fetched)
    ensures out.Through? && FreshLocally(Token.VerifyToken(mac, cookie.value).value, now) ==> out.cookie == None
    ensures out.Through? && !FreshLocally(Token.VerifyToken(mac, cookie.value).value, now) ==> out.cookie == Some(fetched.token)
  {
    if cookie.None? {
      return ToDenied;
    }
    if cookie.value == "" {
      return ToDenied;
    }
    var claims := Token.VerifyToken(mac, cookie.value);
    if claims.None? {
      return ToDenied;
    }
    if claims.value.expires > Unix(now) {
      return Through(None);
    }
    match fetched
    case Unreachable => return ToDenied;
    case Refused => return ToDenied;
    case Session(session) => return Through(Some(session));
  }

  /** JavaScript holds every time signed so far exactly. */
  predicate ExactTimes(s: State) {
    forall k :: 0 <= k < |s.tokens| ==> Token.JsClaims(s.tokens[k].claims) == s.tokens[k].claims
  }

  lemma SecondsOf(now: int, seconds: int)
    ensures Unix(now) < seconds <==> now < seconds * SECOND
  {
  }

  /** With the signed text of a token of the run as its cookie, a request goes through untouched until a
      recheck interval after the clock read the token was signed on, in whole seconds; then with whatever
      session the bot gives for it, as the new cookie; and else to /denied. */
  lemma SignedCookieIsAnswered(r: Run, i: nat, mac: Token.Mac, k: nat, fetched: Fetched)
    requires r.Valid() && i <= |r.steps| && k < |r.At(i).tokens| && ExactTimes(r.At(i))
    requires Printable(r.At(i).tokens[k].claims) && Token.Complete(r.At(i).tokens[k].claims)
    ensures var s, t := r.At(i), r.At(i).tokens[k];
      Respond(mac, Some(Token.Sign(mac, t.claims)), s.now, fetched) ==
        if Unix(s.now) < Unix(t.at + r.cfg.recheck) then Through(None)
        else if fetched.Session? then Through(Some(fetched.token))
        else ToDenied
  {
    var c := r.At(i).tokens[k].claims;
    Token.VerifyTokenSigned(mac, c);
    Guarantees.AcceptedExactlyWhileFresh(r, i, k);
    RunKeepsInv(r, true, i);
    assert TokenOk(r.cfg, r.At(i), k);
    assert Token.Sign(mac, c) != "";
  }

  /** How long the dashboard can let a token in on its own: less than a recheck interval past the
      token's clock read, and past the ceiling. */
  lemma FreshTokenBounds(cfg: Config, s: State, k: nat)
    requires cfg.Valid() && Inv(cfg, s) && k < |s.tokens| && FreshLocally(s.tokens[k].claims, s.now)
    ensures s.now < s.tokens[k].at + cfg.recheck
    ensures s.now < s.tokens[k].claims.absolute * SECOND + cfg.recheck
  {
    assert TokenOk(cfg, s, k);
    var t := s.tokens[k];
    Guarantees.BeforeExpiry(s.now, t.at, cfg.recheck);
    match t.origin
    case FromLink(_) =>
      SecondsOf(s.now, t.claims.absolute);
    case FromToken(p) =>
      Guarantees.UnixOfSeconds(s.tokens[p].claims.absolute);
      SecondsOf(t.at, t.claims.absolute);
  }

  /** A request admitted on its cookie alone at time t: the group's answer for the cookie's member
      was yes at a moment in (t - RecheckInterval, t], and t is below the ceiling plus
      RecheckInterval. */
  lemma LocalAdmission(r: Run, i: nat, mac: Token.Mac, token: string) returns (j: nat)
    requires r.Valid() && i <= |r.steps| && ExactTimes(r.At(i))
    requires Token.Unforged(mac, Guarantees.SignedClaims(r.At(i)), token)
    requires Token.VerifyToken(mac, token).Some? && FreshLocally(Token.VerifyToken(mac, token).value, r.At(i).now)
    ensures var c := Token.VerifyToken(mac, token).value;
      && j <= i && Guarantees.MemberAt(r, j, c.group, c.member)
      && r.At(i).now - r.cfg.recheck < r.At(j).now <= r.At(i).now
      && r.At(i).now < c.absolute * SECOND + r.cfg.recheck
  {
    var s, c := r.At(i), Token.VerifyToken(mac, token).value;
    RunKeepsInv(r, true, i);
    Token.AcceptedWasSigned(mac, Guarantees.SignedClaims(s), token);
    var signed :| signed in Guarantees.SignedClaims(s) && Token.JsClaims(signed) == c;
    var k: nat :| k < |s.tokens| && s.tokens[k].claims == signed;
    assert signed == c;
    FreshTokenBounds(r.cfg, s, k);
    var t := s.tokens[k];
    assert TokenOk(r.cfg, s, k);
    j := Guarantees.CheckWasTrue(r, i, Check(t.group, t.member, t.checked));
  }

  /** Calls that began after there were `n` calls, and what they signed, read their clock no earlier
      than `t`. */
  ghost predicate Late(s: State, n: nat, t: int) {
    && (forall c :: c in s.calls && c >= n && s.calls[c].Timed? ==> s.calls[c].at >= t)
    && (forall c :: c in s.calls && c >= n && s.calls[c].Checked? ==> s.calls[c].at >= t)
    && (forall k :: 0 <= k < |s.tokens| && s.tokens[k].call >= n ==> s.tokens[k].at >= t)
  }

  lemma StepKeepsLate(cfg: Config, s: State, step: Step, n: nat, t: int)
    requires Late(s, n, t) && t <= s.now
    ensures Late(Apply(cfg, true, s, step), n, t)
  {
    match step
    case BeginMint(_, _, _) => MintKeepsLate(cfg, s, step, n, t);
    case Generate(_, _) => MintKeepsLate(cfg, s, step, n, t);
    case Store(_, _) => MintKeepsLate(cfg, s, step, n, t);
    case Take(nonce, fault) => TakeKeepsLate(cfg, s, nonce, fault, n, t);
    case BeginRefresh(k) => BeginRefreshKeepsLate(s, k, n, t);
    case ReadClock(c) => ReadClockKeepsLate(cfg, s, c, n, t);
    case AskMembership(c) => AskMembershipKeepsLate(s, c, n, t);
    case SignToken(c) => SignKeepsLate(cfg, s, c, n, t);
    case Tick(_) =>
    case Change(_) =>
    case Restart =>
    case Abandon(_) =>
  }

  lemma MintKeepsLate(cfg: Config, s: State, step: Step, n: nat, t: int)
    requires Late(s, n, t) && (step.BeginMint? || step.Generate? || step.Store?)
    ensures Late(Apply(cfg, true, s, step), n, t)
  {
    assert Apply(cfg, true, s, step).tokens == s.tokens;
  }

  lemma TakeKeepsLate(cfg: Config, s: State, nonce: string, fault: Fault, n: nat, t: int)
    requires Late(s, n, t) && t <= s.now
    ensures Late(DoTake(cfg, s, nonce, fault), n, t)
  {
    if nonce != "" && fault == NoFault && NONCE_PREFIX + nonce in s.kv {
    } else {
      assert DoTake(cfg, s, nonce, fault).calls == s.calls;
    }
  }

  lemma BeginRefreshKeepsLate(s: State, k: nat, n: nat, t: int)
    requires Late(s, n, t) && t <= s.now
    ensures Late(DoBeginRefresh(s, k), n, t)
  {
    if k < |s.tokens| && Token.Complete(s.tokens[k].claims) {
    } else {
      assert DoBeginRefresh(s, k).calls == s.calls;
    }
  }

  lemma ReadClockKeepsLate(cfg: Config, s: State, c: nat, n: nat, t: int)
    requires Late(s, n, t) && t <= s.now
    ensures Late(DoReadClock(cfg, s, c), n, t)
  {
    var s' := DoReadClock(cfg, s, c);
    assert s' == s.(calls := s'.calls);
  }

  lemma AskMembershipKeepsLate(s: State, c: nat, n: nat, t: int)
    requires Late(s, n, t) && t <= s.now
    ensures Late(DoAskMembership(s, c), n, t)
  {
  }

  lemma SignKeepsLate(cfg: Config, s: State, c: nat, n: nat, t: int)
    requires Late(s, n, t) && t <= s.now
    ensures Late(DoSign(cfg, s, c), n, t)
  {
  }

  lemma {:induction false} RunKeepsLate(r: Run, a: nat, i: nat)
    requires r.Valid() && a <= i <= |r.steps|
    ensures Late(r.At(i), r.At(a).next, r.At(a).now)
    decreases i
  {
    if i == a {
      RunKeepsInv(r, true, a);
      var s := r.At(a);
      forall k: nat | k < |s.tokens| ensures s.tokens[k].call < s.next {
        assert TokenOk(r.cfg, s, k);
      }
    } else {
      RunKeepsLate(r, a, i - 1);
      RunExtends(r, true, a, i - 1);
      StepKeepsLate(r.cfg, r.At(i - 1), r.steps[i - 1], r.At(a).next, r.At(a).now);
    }
  }

  /** A request that needed a refresh. The dashboard read its clock at state `a` and found token `k` no
      longer fresh; a Refresh of it that began after that signed token `k'`, which the dashboard has at
      state `d`. The library reads back the JIDs of the login. */
  ghost predicate Renewed(r: Run, a: nat, d: nat, k: nat, k': nat) {
    && a <= d <= |r.steps| && k < |r.At(a).tokens| && !FreshLocally(r.At(a).tokens[k].claims, r.At(a).now)
    && k' < |r.At(d).tokens| && r.At(d).tokens[k'].origin == FromToken(k) && r.At(d).tokens[k'].call >= r.At(a).next
    && Guarantees.KnownIdentity(r.cfg, r.At(a), k)
  }

  /** Then the group's answer for the cookie's member was yes at a moment between the clock read and the
      admission, the ceiling's second had not come at the clock read, and the new token is for the same
      group and member under the same ceiling. */
  lemma RefreshedAdmission(r: Run, a: nat, d: nat, k: nat, k': nat) returns (j: nat)
    requires r.Valid() && Renewed(r, a, d, k, k')
    ensures var c, c' := r.At(a).tokens[k].claims, r.At(d).tokens[k'].claims;
      && j <= d && Guarantees.MemberAt(r, j, c.group, c.member)
      && r.At(a).now <= r.At(j).now <= r.At(d).now
      && r.At(a).now < c.absolute * SECOND
      && c'.group == c.group && c'.member == c.member && c'.absolute == c.absolute
  {
    RunKeepsInv(r, true, a);
    RunKeepsInv(r, true, d);
    RunKeepsLate(r, a, d);
    RunExtends(r, true, a, d);
    Guarantees.ChainKeepsIdentity(r.cfg, r.At(a), k);
    var s := r.At(d);
    assert s.tokens[k] == r.At(a).tokens[k];
    assert TokenOk(r.cfg, s, k');
    var t := s.tokens[k'];
    Guarantees.UnixOfSeconds(s.tokens[k].claims.absolute);
    SecondsOf(t.at, s.tokens[k].claims.absolute);
    j := Guarantees.CheckWasTrue(r, d, Check(t.group, t.member, t.checked));
    RunExtends(r, true, j, d);
  }

  /** The bot's answer to a refresh of the cookie. */
  ghost predicate Served(r: Run, a: nat, d: nat, k: nat, k': nat, mac: Token.Mac, cookie: string, fetched: Fetched) {
    && Renewed(r, a, d, k, k')
    && Token.Parse(mac, cookie) == Ok(r.At(a).tokens[k].claims)
    && var c' := r.At(d).tokens[k'].claims;
       Ascii(c'.group) && Ascii(c'.member) && fetched == Session(Token.Sign(mac, c'))
  }

  /** When a request whose clock read was at state `a` is let through: there and then on a fresh cookie,
      at state `d` on a refreshed one. */
  function AdmittedAt(r: Run, a: nat, d: nat, c: Claims): int
    requires a <= d <= |r.steps|
  {
    if FreshLocally(c, r.At(a).now) then r.At(a).now else r.At(d).now
  }

  /** Dashboard and bot composed. Every request the dashboard lets through at time t, on its cookie alone
      or on a session fetched from the bot, is backed by a yes of the cookie's group for the cookie's
      member no later than t. If the request took less than RecheckInterval, the yes lies in
      (t - RecheckInterval, t]; if it took no more, t is below the cookie's ceiling plus RecheckInterval. */
  lemma AdmittedRequestIsBacked(r: Run, a: nat, d: nat, mac: Token.Mac, cookie: string, fetched: Fetched, k: nat, k': nat)
    returns (j: nat)
    requires r.Valid() && a <= d <= |r.steps| && ExactTimes(r.At(a))
    requires Token.Unforged(mac, Guarantees.SignedClaims(r.At(a)), cookie)
    requires Admits(mac, Some(cookie), r.At(a).now, fetched)
    requires FreshLocally(Token.VerifyToken(mac, cookie).value, r.At(a).now) || Served(r, a, d, k, k', mac, cookie, fetched)
    ensures var c := Token.VerifyToken(mac, cookie).value;
      var t := AdmittedAt(r, a, d, c);
      && j <= d && Guarantees.MemberAt(r, j, c.group, c.member) && r.At(j).now <= t
      && (t - r.At(a).now < r.cfg.recheck ==> t - r.cfg.recheck < r.At(j).now)
      && (t - r.At(a).now <= r.cfg.recheck ==> t < c.absolute * SECOND + r.cfg.recheck)
  {
    if FreshLocally(Token.VerifyToken(mac, cookie).value, r.At(a).now) {
      j := LocalAdmission(r, a, mac, cookie);
    } else {
      Token.BothSidesReadTheSame(mac, Guarantees.SignedClaims(r.At(a)), cookie);
      j := RefreshedAdmission(r, a, d, k, k');
    }
  }
}
