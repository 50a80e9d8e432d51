/** What the login protocol guarantees over whole runs. */
module Guarantees {
  import opened Wrappers
  import opened Time
  import opened Transport
  import opened Json
  import opened Webauth
  import opened Protocol
  import opened Invariants
  import opened Sequential
  import SingleUse
  import Token

  // ---------------------------------------------------------------------------------------------
  // Revocation
  // ---------------------------------------------------------------------------------------------

  /** The world says, at state `j` of the run, that someone written `member` is in a group written
      `group`. */
  ghost predicate MemberAt(r: Run, j: nat, group: string, member: string)
    requires j <= |r.steps|
  {
    exists g, m :: r.cfg.format(g) == group && r.cfg.format(m) == member && Answer(r.At(j).world, g, m) == Ok(true)
  }

  /** Every check on record was a true answer at an earlier moment of the run. */
  lemma {:induction false} CheckWasTrue(r: Run, i: nat, c: Check) returns (j: nat)
    requires r.Valid() && i <= |r.steps| && c in r.At(i).checks
    ensures j <= i && r.At(j).now == c.at && Answer(r.At(j).world, c.group, c.member) == Ok(true)
  {
    var s := r.At(i - 1);
    if c in s.checks {
      j := CheckWasTrue(r, i - 1, c);
    } else {
      j := i - 1;
      NewCheckIsTrue(r.cfg, true, s, r.steps[i - 1], c);
    }
  }

  /** Acceptance before the expiry second puts the clock less than one recheck interval after the
      instant the token was timed. */
  lemma BeforeExpiry(now: int, at: int, recheck: int)
    requires Unix(now) < Unix(at + recheck)
    ensures now < at + recheck
  {
  }

  /** Revocation bound. Whenever Verify accepts claims for (group, member) at time t, the group's
      own answer was yes for them at a moment in (t - RecheckInterval, t]. */
  lemma RevocationBound(r: Run, i: nat, claims: Claims) returns (j: nat)
    requires r.Valid() && i <= |r.steps| && VerifyAccepts(r.At(i), claims)
    ensures j <= i && MemberAt(r, j, claims.group, claims.member)
    ensures r.At(i).now - r.cfg.recheck < r.At(j).now <= r.At(i).now
  {
    var s := r.At(i);
    RunKeepsInv(r, true, i);
    var k: nat :| k < |s.tokens| && s.tokens[k].claims == claims;
    var t := s.tokens[k];
    assert TokenOk(r.cfg, s, k);
    j := CheckWasTrue(r, i, Check(t.group, t.member, t.checked));
    BeforeExpiry(s.now, t.at, r.cfg.recheck);
  }

  /** Someone who is out of the group from time `out` on is refused from `out + RecheckInterval` on. */
  lemma RemovedMeansLockedOut(r: Run, i: nat, claims: Claims, out: int)
    requires r.Valid() && i <= |r.steps|
    requires forall j: nat :: j <= i && r.At(j).now >= out ==> !MemberAt(r, j, claims.group, claims.member)
    requires r.At(i).now >= out + r.cfg.recheck
    ensures !VerifyAccepts(r.At(i), claims)
  {
    if VerifyAccepts(r.At(i), claims) {
      var j := RevocationBound(r, i, claims);
    }
  }

  // ---------------------------------------------------------------------------------------------
  // Provenance
  // ---------------------------------------------------------------------------------------------

  /** The token at the start of a refresh chain. */
  function Root(tokens: seq<Issued>, k: nat): (root: nat)
    requires k < |tokens|
    ensures root <= k
    decreases k
  {
    match tokens[k].origin
    case FromLink(_) => k
    case FromToken(p) => if p < k then Root(tokens, p) else k
  }

  /** The refresh chain of a token ends in one redeemed link, under the same ceiling. */
  lemma {:induction false} ChainHasRoot(cfg: Config, s: State, k: nat)
    requires Inv(cfg, s) && k < |s.tokens|
    ensures var root := Root(s.tokens, k);
      && root <= k && s.tokens[root].origin.FromLink?
      && s.tokens[root].origin.key in s.minted
      && s.tokens[k].claims.absolute == s.tokens[root].claims.absolute == Unix(s.tokens[root].at + cfg.sessionTtl)
      && s.tokens[root].at <= s.tokens[k].at
    decreases k
  {
    assert TokenOk(cfg, s, k);
    match s.tokens[k].origin
    case FromLink(key) =>
    case FromToken(p) =>
      ChainHasRoot(cfg, s, p);
      assert TokenOk(cfg, s, p);
      UnixOfSeconds(s.tokens[p].claims.absolute);
  }

  lemma UnixOfSeconds(seconds: int)
    ensures Unix(seconds * SECOND) == seconds
  {
  }

  /** The library reads back the JIDs the token's link was minted for. */
  predicate KnownIdentity(cfg: Config, s: State, k: nat)
    requires k < |s.tokens|
  {
    var origin := s.tokens[Root(s.tokens, k)].origin;
    && origin.FromLink? && origin.key in s.minted
    && cfg.RoundTrips(s.minted[origin.key].group) && cfg.RoundTrips(s.minted[origin.key].member)
  }

  /** The group and member of the link ride through the chain unchanged. */
  lemma {:induction false} ChainKeepsIdentity(cfg: Config, s: State, k: nat)
    requires Inv(cfg, s) && k < |s.tokens| && KnownIdentity(cfg, s, k)
    ensures var mint := s.minted[s.tokens[Root(s.tokens, k)].origin.key];
      && s.tokens[k].group == mint.group && s.tokens[k].member == mint.member
      && s.tokens[k].claims.group == cfg.format(mint.group) && s.tokens[k].claims.member == cfg.format(mint.member)
    decreases k
  {
    assert TokenOk(cfg, s, k);
    match s.tokens[k].origin
    case FromLink(key) => assert MintOk(cfg, s, key);
    case FromToken(p) =>
      ChainKeepsIdentity(cfg, s, p);
  }

  /** The claims of every token signed so far. */
  function SignedClaims(s: State): set<Claims> {
    set k | 0 <= k < |s.tokens| :: s.tokens[k].claims
  }

  /** Where claims come from: token `k` carries them and its refresh chain starts at token `root`, signed
      on a clock read within the life of one minted link; they name the group and member of that link
      (whose JIDs the library reads back), and in single-use mode no other chain starts at that link. */
  ghost predicate Descends(cfg: Config, s: State, claims: Claims, k: nat, root: nat) {
    && k < |s.tokens| && s.tokens[k].claims == claims
    && root == Root(s.tokens, k) && s.tokens[root].origin.FromLink?
    && s.tokens[root].origin.key in s.minted
    && var mint := s.minted[s.tokens[root].origin.key];
       && LinkLive(mint.rec, s.tokens[root].at)
       && (cfg.RoundTrips(mint.group) && cfg.RoundTrips(mint.member) ==>
             claims.group == cfg.format(mint.group) && claims.member == cfg.format(mint.member))
       && (cfg.singleUse ==>
             forall j :: 0 <= j < |s.tokens| && s.tokens[j].origin == s.tokens[root].origin ==> j == root)
  }

  /** Provenance, for all signed claims, expired or not: what Verify accepts and what Refresh renews. */
  lemma Provenance(r: Run, i: nat, claims: Claims) returns (k: nat, root: nat)
    requires r.Valid() && i <= |r.steps| && claims in SignedClaims(r.At(i))
    ensures Descends(r.cfg, r.At(i), claims, k, root)
  {
    var s := r.At(i);
    RunKeepsInv(r, true, i);
    k :| k < |s.tokens| && s.tokens[k].claims == claims;
    root := Root(s.tokens, k);
    ChainHasRoot(r.cfg, s, k);
    assert TokenOk(r.cfg, s, root);
    var mint := s.minted[s.tokens[root].origin.key];
    if r.cfg.RoundTrips(mint.group) && r.cfg.RoundTrips(mint.member) {
      ChainKeepsIdentity(r.cfg, s, k);
    }
    if r.cfg.singleUse {
      SingleUse.LinkRedeemsOnce(r, i, root);
    }
  }

  /** Provenance for the text of a token: under an ideal MAC, so does whatever Refresh or Verify parses. */
  lemma ProvenanceForTexts(r: Run, i: nat, mac: Token.Mac, token: string) returns (k: nat, root: nat)
    requires r.Valid() && i <= |r.steps|
    requires Token.Unforged(mac, SignedClaims(r.At(i)), token) && Token.Parse(mac, token).Ok?
    ensures Descends(r.cfg, r.At(i), Token.Parse(mac, token).value, k, root)
  {
    Token.AcceptedWasSigned(mac, SignedClaims(r.At(i)), token);
    k, root := Provenance(r, i, Token.Parse(mac, token).value);
  }

  // ---------------------------------------------------------------------------------------------
  // The ceiling
  // ---------------------------------------------------------------------------------------------

  /** Every token of a login carries the ceiling fixed when the link was redeemed, and nothing is
      accepted from that second on, whatever has been refreshed. */
  lemma CeilingNeverMoves(r: Run, i: nat, k: nat)
    requires r.Valid() && i <= |r.steps| && k < |r.At(i).tokens|
    ensures var s := r.At(i);
      var root := Root(s.tokens, k);
      && s.tokens[root].origin.FromLink?
      && s.tokens[k].claims.absolute == Unix(s.tokens[root].at + r.cfg.sessionTtl)
      && (Unix(s.now) >= s.tokens[k].claims.absolute ==> !VerifyAccepts(s, s.tokens[k].claims))
  {
    RunKeepsInv(r, true, i);
    ChainHasRoot(r.cfg, r.At(i), k);
  }

  /** Completeness below the ceiling for a Refresh that nothing comes between: for any token of a run whose
      link's JIDs the library reads back, it succeeds exactly when the ceiling's second has not come and the group answers
      yes, and the new token carries the old ceiling. */
  lemma RefreshAloneSucceedsBelowTheCeiling(r: Run, i: nat, k: nat)
    requires r.Valid() && i <= |r.steps| && k < |r.At(i).tokens| && KnownIdentity(r.cfg, r.At(i), k)
    ensures var s := r.At(i);
      var s' := RefreshAlone(r.cfg, s, k);
      var below := Unix(s.now) < s.tokens[k].claims.absolute;
      && (|s'.tokens| > |s.tokens| <==>
            below && Answer(s.world, s.tokens[k].group, s.tokens[k].member) == Ok(true))
      && (|s'.tokens| > |s.tokens| ==>
            s'.tokens[|s.tokens|].claims.absolute == s.tokens[k].claims.absolute
            && s'.tokens[|s.tokens|].claims.group == s.tokens[k].claims.group
            && s'.tokens[|s.tokens|].claims.member == s.tokens[k].claims.member
            && s'.tokens[|s.tokens|].claims.expires == Unix(s.now + r.cfg.recheck))
  {
    RunKeepsInv(r, true, i);
    ChainKeepsIdentity(r.cfg, r.At(i), k);
    RefreshAloneMeetsItsSpec(r.cfg, r.At(i), k);
    UnixOfSeconds(r.At(i).tokens[k].claims.absolute);
  }

  /** Acceptance to the second: a token of a run is accepted exactly until a recheck interval after the
      clock read it was signed on, and a session after that of the login, both in whole seconds. */
  lemma AcceptedExactlyWhileFresh(r: Run, i: nat, k: nat)
    requires r.Valid() && i <= |r.steps| && k < |r.At(i).tokens| && Token.Complete(r.At(i).tokens[k].claims)
    ensures var s, t := r.At(i), r.At(i).tokens[k];
      VerifyAccepts(s, t.claims) <==>
        Unix(s.now) < Unix(t.at + r.cfg.recheck)
        && Unix(s.now) < Unix(s.tokens[Root(s.tokens, k)].at + r.cfg.sessionTtl)
    ensures var t := r.At(i).tokens[k];
      t.claims.issuedAt == Unix(t.at) && t.claims.group == r.cfg.format(t.group) && t.claims.member == r.cfg.format(t.member)
  {
    RunKeepsInv(r, true, i);
    assert TokenOk(r.cfg, r.At(i), k);
    ChainHasRoot(r.cfg, r.At(i), k);
  }

  // ---------------------------------------------------------------------------------------------
  // Token texts
  // ---------------------------------------------------------------------------------------------

  /** The revocation bound for the text of a token: under an ideal MAC, whatever text Verify parses
      and accepts at time t is backed by a yes of the group in (t - RecheckInterval, t]. */
  lemma RevocationBoundForTexts(r: Run, i: nat, mac: Token.Mac, token: string) returns (j: nat)
    requires r.Valid() && i <= |r.steps|
    requires Token.Unforged(mac, SignedClaims(r.At(i)), token)
    requires Token.Parse(mac, token).Ok? && Unexpired(Token.Parse(mac, token).value, r.At(i).now)
    ensures j <= i && r.At(i).now - r.cfg.recheck < r.At(j).now <= r.At(i).now
    ensures MemberAt(r, j, Token.Parse(mac, token).value.group, Token.Parse(mac, token).value.member)
  {
    Token.AcceptedWasSigned(mac, SignedClaims(r.At(i)), token);
    j := RevocationBound(r, i, Token.Parse(mac, token).value);
  }

  /** And the other way: the text the bot signed for a token of the run is read back as its claims, and
      accepted exactly until then. */
  lemma SignedTextIsAcceptedWhileFresh(r: Run, i: nat, mac: Token.Mac, k: nat)
    requires r.Valid() && i <= |r.steps| && k < |r.At(i).tokens|
    requires Printable(r.At(i).tokens[k].claims) && Token.Complete(r.At(i).tokens[k].claims)
    ensures var s, t := r.At(i), r.At(i).tokens[k];
      && Token.Parse(mac, Token.Sign(mac, t.claims)) == Ok(t.claims)
      && (VerifyAccepts(s, t.claims) <==> Unexpired(t.claims, s.now))
      && (VerifyAccepts(s, t.claims) <==>
            Unix(s.now) < Unix(t.at + r.cfg.recheck)
            && Unix(s.now) < Unix(s.tokens[Root(s.tokens, k)].at + r.cfg.sessionTtl))
  {
    Token.ParseSigned(mac, r.At(i).tokens[k].claims);
    AcceptedExactlyWhileFresh(r, i, k);
  }
}
