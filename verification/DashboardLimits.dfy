/**
 Exactly how far the dashboard's local decision carries: when a token is let in past its ceiling, and when
 an admission can be older than a recheck interval.
*/
module DashboardLimits {
  import opened Wrappers
  import opened Time
  import opened Transport
  import opened Json
  import opened Webauth
  import opened Protocol
  import opened Invariants
  import opened Sequential
  import opened Dashboard
  import opened Runs
  import Guarantees

  // ---------------------------------------------------------------------------------------------
  // The ceiling
  // ---------------------------------------------------------------------------------------------

  /** The dashboard lets the claims in at a time when Verify would not, from the ceiling on. */
  ghost predicate Outlives(c: Claims) {
    exists now :: FreshLocally(c, now) && Unix(now) >= c.absolute
  }

  lemma OutlivesItsCeiling(c: Claims)
    ensures Outlives(c) <==> c.expires > c.absolute
  {
    Guarantees.UnixOfSeconds(c.absolute);
    if c.expires > c.absolute {
      assert FreshLocally(c, c.absolute * SECOND);
    }
  }

  /** Which tokens of a run outlive their ceiling: none signed for a link, and one signed by a refresh
      exactly when the recheck interval, counted from Refresh's clock read, reaches past the ceiling's
      second. Refresh adds the interval without looking at the ceiling. */
  lemma WhoOutlivesTheCeiling(r: Run, i: nat, k: nat)
    requires r.Valid() && i <= |r.steps| && k < |r.At(i).tokens|
    ensures var s, t := r.At(i), r.At(i).tokens[k];
      match t.origin
      case FromLink(_) => !Outlives(t.claims)
      case FromToken(p) =>
        && p < k && t.claims.absolute == s.tokens[p].claims.absolute
        && (Outlives(t.claims) <==> Unix(t.at + r.cfg.recheck) > s.tokens[p].claims.absolute)
  {
    RunKeepsInv(r, true, i);
    var s, t := r.At(i), r.At(i).tokens[k];
    assert TokenOk(r.cfg, s, k);
    OutlivesItsCeiling(t.claims);
    match t.origin
    case FromLink(_) =>
    case FromToken(p) => Guarantees.UnixOfSeconds(s.tokens[p].claims.absolute);
  }

  /** Seen from the call: refreshing a session below its ceiling while the group says yes gives a token that
      outlives the ceiling exactly under that condition. */
  lemma RefreshOutlivesTheCeiling(r: Run, i: nat, k: nat)
    requires r.Valid() && i <= |r.steps| && k < |r.At(i).tokens| && Guarantees.KnownIdentity(r.cfg, r.At(i), k)
    requires Unix(r.At(i).now) < r.At(i).tokens[k].claims.absolute
    requires Answer(r.At(i).world, r.At(i).tokens[k].group, r.At(i).tokens[k].member) == Ok(true)
    ensures var s := r.At(i);
      var after := RefreshAlone(r.cfg, s, k).tokens;
      && |after| == |s.tokens| + 1
      && (Outlives(after[|s.tokens|].claims) <==> Unix(s.now + r.cfg.recheck) > s.tokens[k].claims.absolute)
  {
    var s := r.At(i);
    Guarantees.RefreshAloneSucceedsBelowTheCeiling(r, i, k);
    RunKeepsInv(r, true, i);
    Guarantees.ChainKeepsIdentity(r.cfg, s, k);
    RefreshAloneMeetsItsSpec(r.cfg, s, k);
    OutlivesItsCeiling(RefreshAlone(r.cfg, s, k).tokens[|s.tokens|].claims);
  }

  ghost predicate NoTokenOutlivesTheCeiling(cfg: Config) {
    forall r: Run, i: nat, k: nat :: r.cfg == cfg && r.Valid() && i <= |r.steps| && k < |r.At(i).tokens| ==>
      !Outlives(r.At(i).tokens[k].claims)
  }

  lemma WithinASecond(at: int, recheck: int, absolute: int)
    requires recheck <= SECOND && Unix(at) < absolute
    ensures Unix(at + recheck) <= absolute
  {
  }

  /** A login at time zero, refreshed `late` after it. */
  lemma LateRefresh(cfg: Config, w: World, g: JID, m: JID, late: nat) returns (r: Run)
    requires cfg.Valid() && cfg.RoundTrips(g) && cfg.RoundTrips(m) && Answer(w, g, m) == Ok(true)
    requires Unix(late) < Unix(cfg.sessionTtl) < Unix(late + cfg.recheck)
    ensures r.cfg == cfg && r.Valid() && |End(r).tokens| == 2 && Outlives(End(r).tokens[1].claims)
  {
    var r1 := LoginLater(cfg, w, g, m, 0, late);
    RefreshOfAFreshLogin(r1, cfg, g, m, late);
    r := ThenRefresh(r1, 0);
  }

  lemma RefreshOfAFreshLogin(r: Run, cfg: Config, g: JID, m: JID, late: nat)
    requires r.cfg == cfg && r.Valid() && cfg.Valid()
    requires Unix(late) < Unix(cfg.sessionTtl) < Unix(late + cfg.recheck)
    requires var s := End(r);
      && s.now == late && |s.tokens| == 1 && s.tokens[0].claims == MintClaims(cfg, g, m, 0, cfg.sessionTtl)
      && s.tokens[0].group == g && s.tokens[0].member == m && Answer(s.world, g, m) == Ok(true)
      && Guarantees.KnownIdentity(cfg, s, 0)
    ensures var after := RefreshAlone(cfg, End(r), 0).tokens;
      |after| == 2 && Outlives(after[1].claims)
  {
    RefreshOutlivesTheCeiling(r, |r.steps|, 0);
  }

  lemma LastInstant(absolute: int, recheck: int)
    requires recheck > SECOND
    ensures Unix(absolute * SECOND - 1) < absolute < Unix(absolute * SECOND - 1 + recheck)
  {
  }

  /** The documented ceiling holds on the dashboard for all runs exactly for recheck intervals of at most a
      second. (g, m) is anyone the protocol could let in. */
  lemma CeilingHoldsOnlyForTinyIntervals(cfg: Config, w: World, g: JID, m: JID)
    requires cfg.Valid() && cfg.RoundTrips(g) && cfg.RoundTrips(m) && Answer(w, g, m) == Ok(true)
    ensures NoTokenOutlivesTheCeiling(cfg) <==> cfg.recheck <= SECOND
  {
    if cfg.recheck <= SECOND {
      forall r: Run, i: nat, k: nat | r.cfg == cfg && r.Valid() && i <= |r.steps| && k < |r.At(i).tokens|
        ensures !Outlives(r.At(i).tokens[k].claims)
      {
        WhoOutlivesTheCeiling(r, i, k);
        RunKeepsInv(r, true, i);
        assert TokenOk(cfg, r.At(i), k);
        if r.At(i).tokens[k].origin.FromToken? {
          WithinASecond(r.At(i).tokens[k].at, cfg.recheck, r.At(i).tokens[k].claims.absolute);
        }
      }
    } else {
      var absolute := Unix(cfg.sessionTtl);
      LastInstant(absolute, cfg.recheck);
      var r := LateRefresh(cfg, w, g, m, absolute * SECOND - 1);
      assert Outlives(r.At(|r.steps|).tokens[1].claims);
    }
  }

  // ---------------------------------------------------------------------------------------------
  // The round trip
  // ---------------------------------------------------------------------------------------------

  /** At state `d` the group has said yes for these claims less than a recheck interval ago. */
  ghost predicate Backed(r: Run, d: nat, c: Claims)
    requires d <= |r.steps|
  {
    exists j: nat :: j <= d && Guarantees.MemberAt(r, j, c.group, c.member) && r.At(d).now - r.cfg.recheck < r.At(j).now
  }

  /** Every request that needed a refresh and took `length` from clock read to admission is backed. */
  ghost predicate RoundTripsAreBacked(cfg: Config, length: nat) {
    forall r: Run, a: nat, d: nat, k: nat, k': nat ::
      r.cfg == cfg && r.Valid() && Renewed(r, a, d, k, k') && r.At(d).now - r.At(a).now == length ==>
        Backed(r, d, r.At(a).tokens[k].claims)
  }

  /** When the interval is the whole session, a token expires no earlier than its ceiling, so a stale one can
      never be refreshed. */
  lemma WholeSessionIntervalsNeverRenew(r: Run, a: nat, d: nat, k: nat, k': nat)
    requires r.Valid() && r.cfg.recheck == r.cfg.sessionTtl
    ensures !Renewed(r, a, d, k, k')
  {
    if Renewed(r, a, d, k, k') {
      var j := RefreshedAdmission(r, a, d, k, k');
      RunKeepsInv(r, true, a);
      Guarantees.ChainHasRoot(r.cfg, r.At(a), k);
      assert TokenOk(r.cfg, r.At(a), k);
      SecondsOf(r.At(a).now, r.At(a).tokens[k].claims.absolute);
    }
  }

  function Emptied(w: World): World {
    w.(groups := map[])
  }

  /** A login at `start`, `wait` later. */
  lemma LoginLater(cfg: Config, w: World, g: JID, m: JID, start: int, wait: nat) returns (r: Run)
    requires cfg.Valid() && cfg.RoundTrips(g) && cfg.RoundTrips(m) && Answer(w, g, m) == Ok(true)
    ensures r.cfg == cfg && r.Valid()
    ensures var s := End(r);
      && s.now == start + wait && s.world == w && |s.tokens| == 1
      && s.tokens[0].claims == MintClaims(cfg, g, m, start, start + cfg.sessionTtl)
      && s.tokens[0].group == g && s.tokens[0].member == m
      && Guarantees.KnownIdentity(cfg, s, 0)
  {
    var r0 := LoggedIn(cfg, start, w, g, m);
    r := Then(r0, Tick(wait));
    ThenTakesTheStep(r0, Tick(wait));
  }

  /** The bot refreshes at once the stale cookie of a run's only token. */
  lemma RenewedAtOnce(r: Run, g: JID, m: JID) returns (r': Run)
    requires r.Valid() && |End(r).tokens| == 1 && Guarantees.KnownIdentity(r.cfg, End(r), 0)
    requires var s := End(r);
      Unix(s.now) < s.tokens[0].claims.absolute && s.tokens[0].group == g && s.tokens[0].member == m
      && Answer(s.world, g, m) == Ok(true) && !FreshLocally(s.tokens[0].claims, s.now)
    ensures Continues(r, r') && Renewed(r', |r.steps|, |r'.steps|, 0, 1)
    ensures End(r').now == End(r).now && End(r').world == End(r).world && End(r').tokens[1].at == End(r).now
  {
    r' := ThenRefresh(r, 0);
    RefreshOfTheOnlyToken(r, |r.steps|, g, m);
    assert r'.At(|r.steps|) == End(r);
  }

  /** A login at `start`, and a request for it `wait` later, when its token is stale but below the ceiling. */
  lemma StaleRequest(cfg: Config, w: World, g: JID, m: JID, start: int, wait: nat) returns (r: Run, a: nat)
    requires cfg.Valid() && cfg.RoundTrips(g) && cfg.RoundTrips(m) && Answer(w, g, m) == Ok(true)
    requires Unix(start + cfg.recheck) <= Unix(start + wait) < Unix(start + cfg.sessionTtl)
    ensures r.cfg == cfg && r.Valid() && Renewed(r, a, |r.steps|, 0, 1)
    ensures r.At(a).now == End(r).now == start + wait && End(r).world == w
    ensures r.At(a).tokens[0].claims.absolute == Unix(start + cfg.sessionTtl)
    ensures End(r).tokens[1].at == start + wait
  {
    var r1 := LoginLater(cfg, w, g, m, start, wait);
    a := |r1.steps|;
    r := RenewedAtOnce(r1, g, m);
    assert r.At(a) == End(r1);
  }

  /** A step that leaves tokens alone leaves an answered request answered. */
  lemma StillRenewed(r: Run, a: nat, k: nat, k': nat, step: Step)
    requires Renewed(r, a, |r.steps|, k, k') && (step.Tick? || step.Change?)
    ensures Renewed(Then(r, step), a, |r.steps| + 1, k, k')
  {
    ThenTakesTheStep(r, step);
    assert Then(r, step).At(a) == r.At(a);
    assert End(Then(r, step)).tokens == End(r).tokens;
  }

  /** The same; then the group empties, and the answer takes `length` to arrive. */
  lemma SlowRequest(cfg: Config, w: World, g: JID, m: JID, start: int, wait: nat, length: nat) returns (r: Run, a: nat)
    requires cfg.Valid() && cfg.RoundTrips(g) && cfg.RoundTrips(m) && Answer(w, g, m) == Ok(true)
    requires Unix(start + cfg.recheck) <= Unix(start + wait) < Unix(start + cfg.sessionTtl)
    ensures r.cfg == cfg && r.Valid() && Renewed(r, a, |r.steps|, 0, 1)
    ensures r.At(a).now == start + wait && End(r).now == r.At(a).now + length
    ensures r.At(a).tokens[0].claims.absolute == Unix(start + cfg.sessionTtl)
    ensures End(r).world == Emptied(w) && forall j: nat :: j < |r.steps| ==> r.At(j).now <= r.At(a).now
  {
    var r2;
    r2, a := StaleRequest(cfg, w, g, m, start, wait);
    var r3 := Then(r2, Change(Emptied(w)));
    ThenTakesTheStep(r2, Change(Emptied(w)));
    StillRenewed(r2, a, 0, 1, Change(Emptied(w)));
    r := Then(r3, Tick(length));
    ThenTakesTheStep(r3, Tick(length));
    StillRenewed(r3, a, 0, 1, Tick(length));
    assert r.At(a) == r3.At(a) == r2.At(a);
    forall j: nat | j < |r.steps| ensures r.At(j).now <= r.At(a).now {
      RunExtends(r3, true, j, |r3.steps|);
    }
  }

  /** When to log in for the ceiling to fall on a second. */
  function Start(cfg: Config): int {
    SECOND - cfg.sessionTtl % SECOND
  }

  /** Stale from an interval after the login to the last nanosecond below the ceiling. */
  lemma StaleBelowTheCeiling(cfg: Config)
    requires cfg.Valid() && cfg.recheck < cfg.sessionTtl
    ensures var start, absolute := Start(cfg), Unix(Start(cfg) + cfg.sessionTtl);
      && Unix(start + cfg.recheck) < absolute && start + cfg.sessionTtl == absolute * SECOND
      && Unix(start + cfg.recheck) <= Unix(start + (cfg.sessionTtl - 1)) < absolute
  {
    assert Start(cfg) + cfg.sessionTtl == (cfg.sessionTtl / SECOND + 1) * SECOND;
  }

  /** A refresh of a run's only token, below its ceiling and with the group's yes. */
  lemma RefreshOfTheOnlyToken(r: Run, i: nat, g: JID, m: JID)
    requires r.Valid() && i <= |r.steps| && |r.At(i).tokens| == 1 && Guarantees.KnownIdentity(r.cfg, r.At(i), 0)
    requires var s := r.At(i);
      Unix(s.now) < s.tokens[0].claims.absolute && s.tokens[0].group == g && s.tokens[0].member == m
      && Answer(s.world, g, m) == Ok(true)
    ensures var s, s' := r.At(i), RefreshAlone(r.cfg, r.At(i), 0);
      && s'.now == s.now && s'.world == s.world && |s'.tokens| == 2 && s'.tokens[1].origin == FromToken(0) && s'.tokens[1].call == s.next
      && s'.tokens[1].at == s.now
  {
    Guarantees.RefreshAloneSucceedsBelowTheCeiling(r, i, 0);
    RunKeepsInv(r, true, i);
    Guarantees.ChainKeepsIdentity(r.cfg, r.At(i), 0);
    RefreshAloneMeetsItsSpec(r.cfg, r.At(i), 0);
  }

  lemma SlowRequestIsNotBacked(cfg: Config, w: World, g: JID, m: JID, length: nat)
    requires cfg.Valid() && cfg.RoundTrips(g) && cfg.RoundTrips(m) && Answer(w, g, m) == Ok(true)
    requires cfg.recheck < cfg.sessionTtl && length >= cfg.recheck
    ensures !RoundTripsAreBacked(cfg, length)
  {
    StaleBelowTheCeiling(cfg);
    var r, a := SlowRequest(cfg, w, g, m, Start(cfg), cfg.recheck, length);
    var c := r.At(a).tokens[0].claims;
    assert !Guarantees.MemberAt(r, |r.steps|, c.group, c.member);
    assert !Backed(r, |r.steps|, c);
  }

  /** A request that needed a refresh is backed by a yes in (t - RecheckInterval, t], in every run, exactly for
      round trips shorter than the interval; unless the interval is the whole session, in which case no
      stale cookie is ever refreshed. */
  lemma RoundTripsAreBackedIfShort(cfg: Config, w: World, g: JID, m: JID, length: nat)
    requires cfg.Valid() && cfg.RoundTrips(g) && cfg.RoundTrips(m) && Answer(w, g, m) == Ok(true)
    ensures RoundTripsAreBacked(cfg, length) <==> length < cfg.recheck || cfg.recheck == cfg.sessionTtl
  {
    if length < cfg.recheck || cfg.recheck == cfg.sessionTtl {
      forall r: Run, a: nat, d: nat, k: nat, k': nat |
        r.cfg == cfg && r.Valid() && Renewed(r, a, d, k, k') && r.At(d).now - r.At(a).now == length
        ensures Backed(r, d, r.At(a).tokens[k].claims)
      {
        if cfg.recheck == cfg.sessionTtl {
          WholeSessionIntervalsNeverRenew(r, a, d, k, k');
        } else {
          var j := RefreshedAdmission(r, a, d, k, k');
        }
      }
    } else {
      SlowRequestIsNotBacked(cfg, w, g, m, length);
    }
  }

  /** Every admission after a round trip of `length` that needed a refresh is below the cookie's ceiling plus
      a recheck interval. */
  ghost predicate RoundTripsStayNearTheCeiling(cfg: Config, length: nat) {
    forall r: Run, a: nat, d: nat, k: nat, k': nat ::
      r.cfg == cfg && r.Valid() && Renewed(r, a, d, k, k') && r.At(d).now - r.At(a).now == length ==>
        r.At(d).now < r.At(a).tokens[k].claims.absolute * SECOND + cfg.recheck
  }

  /** The other half of the composed bound, exactly for round trips no longer than the interval; with the same
      exception. */
  lemma RoundTripsStayNearTheCeilingIfShort(cfg: Config, w: World, g: JID, m: JID, length: nat)
    requires cfg.Valid() && cfg.RoundTrips(g) && cfg.RoundTrips(m) && Answer(w, g, m) == Ok(true)
    ensures RoundTripsStayNearTheCeiling(cfg, length) <==> length <= cfg.recheck || cfg.recheck == cfg.sessionTtl
  {
    if length <= cfg.recheck || cfg.recheck == cfg.sessionTtl {
      forall r: Run, a: nat, d: nat, k: nat, k': nat |
        r.cfg == cfg && r.Valid() && Renewed(r, a, d, k, k') && r.At(d).now - r.At(a).now == length
        ensures r.At(d).now < r.At(a).tokens[k].claims.absolute * SECOND + cfg.recheck
      {
        if cfg.recheck == cfg.sessionTtl {
          WholeSessionIntervalsNeverRenew(r, a, d, k, k');
        } else {
          var j := RefreshedAdmission(r, a, d, k, k');
        }
      }
    } else {
      StaleBelowTheCeiling(cfg);
      var r, a := SlowRequest(cfg, w, g, m, Start(cfg), cfg.sessionTtl - 1, length);
      var c := r.At(a).tokens[0].claims;
      assert r.At(|r.steps|).now >= c.absolute * SECOND + cfg.recheck;
    }
  }

  // ---------------------------------------------------------------------------------------------
  // The ceiling and the dashboard's own refreshes
  // ---------------------------------------------------------------------------------------------

  /** No token that the dashboard gets for a stale cookie outlives its ceiling. */
  ghost predicate NoRenewalOutlivesTheCeiling(cfg: Config) {
    forall r: Run, a: nat, d: nat, k: nat, k': nat ::
      r.cfg == cfg && r.Valid() && Renewed(r, a, d, k, k') ==> !Outlives(r.At(d).tokens[k'].claims)
  }

  /** Of the dashboard, which refreshes stale cookies only, the ceiling holds for all runs exactly for
      intervals of at most a second or of the whole session. */
  lemma RenewalsKeepTheCeiling(cfg: Config, w: World, g: JID, m: JID)
    requires cfg.Valid() && cfg.RoundTrips(g) && cfg.RoundTrips(m) && Answer(w, g, m) == Ok(true)
    ensures NoRenewalOutlivesTheCeiling(cfg) <==> cfg.recheck <= SECOND || cfg.recheck == cfg.sessionTtl
  {
    if cfg.recheck <= SECOND || cfg.recheck == cfg.sessionTtl {
      forall r: Run, a: nat, d: nat, k: nat, k': nat | r.cfg == cfg && r.Valid() && Renewed(r, a, d, k, k')
        ensures !Outlives(r.At(d).tokens[k'].claims)
      {
        if cfg.recheck == cfg.sessionTtl {
          WholeSessionIntervalsNeverRenew(r, a, d, k, k');
        } else {
          CeilingHoldsOnlyForTinyIntervals(cfg, w, g, m);
        }
      }
    } else {
      LateRenewal(cfg, w, g, m);
    }
  }

  lemma LateRenewal(cfg: Config, w: World, g: JID, m: JID)
    requires cfg.Valid() && cfg.RoundTrips(g) && cfg.RoundTrips(m) && Answer(w, g, m) == Ok(true)
    requires SECOND < cfg.recheck < cfg.sessionTtl
    ensures !NoRenewalOutlivesTheCeiling(cfg)
  {
    StaleBelowTheCeiling(cfg);
    var r, a := StaleRequest(cfg, w, g, m, Start(cfg), cfg.sessionTtl - 1);
    var d := |r.steps|;
    LastInstant(r.At(a).tokens[0].claims.absolute, cfg.recheck);
    WhoOutlivesTheCeiling(r, d, 1);
    RunExtends(r, true, a, d);
    assert Outlives(r.At(d).tokens[1].claims);
  }
}
