/**
 Calls that are let finish: whatever else goes on between its steps, a Redeem or Refresh that is neither
 abandoned nor cut off by a restart signs exactly when its tests were passed at the moments it made them.
 */
module Completeness {
  import opened Wrappers
  import opened Time
  import opened Kv
  import opened Transport
  import opened Json
  import opened Webauth
  import opened Protocol
  import opened Invariants
  import Guarantees

  /** The step moves call `c` on, or ends it. */
  predicate Touches(step: Step, c: nat) {
    match step
    case Restart => true
    case Abandon(d) => d == c
    case Generate(d, _) => d == c
    case Store(d, _) => d == c
    case ReadClock(d) => d == c
    case AskMembership(d) => d == c
    case SignToken(d) => d == c
    case _ => false
  }

  function CallAt(s: State, c: nat): Option<Phase> {
    if c in s.calls then Some(s.calls[c]) else None
  }

  predicate SignedBy(s: State, c: nat) {
    exists k :: 0 <= k < |s.tokens| && s.tokens[k].call == c
  }

  /** `s'` is as `s` for call `c`. */
  predicate SameCall(s: State, s': State, c: nat) {
    CallAt(s', c) == CallAt(s, c) && (SignedBy(s', c) <==> SignedBy(s, c)) && s.next <= s'.next
  }

  lemma SignLeavesOthers(cfg: Config, s: State, c: nat, d: nat)
    requires d != c
    ensures SameCall(s, DoSign(cfg, s, d), c)
  {
    var s' := DoSign(cfg, s, d);
    if SignedBy(s, c) {
      var k :| 0 <= k < |s.tokens| && s.tokens[k].call == c;
      assert s'.tokens[k].call == c;
    }
  }

  lemma ReadClockLeavesOthers(cfg: Config, s: State, c: nat, d: nat)
    requires d != c
    ensures SameCall(s, DoReadClock(cfg, s, d), c)
  {
    var s' := DoReadClock(cfg, s, d);
    assert s' == s.(calls := s'.calls);
  }

  lemma TakeLeavesOthers(cfg: Config, s: State, nonce: string, fault: Fault, c: nat)
    requires c < s.next
    ensures SameCall(s, DoTake(cfg, s, nonce, fault), c)
  {
    assert DoTake(cfg, s, nonce, fault).tokens == s.tokens;
  }

  lemma MintLeavesOthers(cfg: Config, s: State, step: Step, c: nat)
    requires !Touches(step, c) && c < s.next && (step.BeginMint? || step.Generate? || step.Store?)
    ensures SameCall(s, Apply(cfg, true, s, step), c)
  {
    assert Apply(cfg, true, s, step).tokens == s.tokens;
  }

  lemma RefreshLeavesOthers(cfg: Config, s: State, step: Step, c: nat)
    requires !Touches(step, c) && c < s.next && (step.BeginRefresh? || step.AskMembership?)
    ensures SameCall(s, Apply(cfg, true, s, step), c)
  {
    assert Apply(cfg, true, s, step).tokens == s.tokens;
  }

  lemma StepLeavesOthers(cfg: Config, s: State, step: Step, c: nat)
    requires !Touches(step, c) && c < s.next
    ensures SameCall(s, Apply(cfg, true, s, step), c)
  {
    match step
    case SignToken(d) => SignLeavesOthers(cfg, s, c, d);
    case ReadClock(d) => ReadClockLeavesOthers(cfg, s, c, d);
    case Take(nonce, fault) => TakeLeavesOthers(cfg, s, nonce, fault, c);
    case BeginMint(_, _, _) => MintLeavesOthers(cfg, s, step, c);
    case Generate(_, _) => MintLeavesOthers(cfg, s, step, c);
    case Store(_, _) => MintLeavesOthers(cfg, s, step, c);
    case BeginRefresh(_) => RefreshLeavesOthers(cfg, s, step, c);
    case AskMembership(_) => RefreshLeavesOthers(cfg, s, step, c);
    case _ =>
  }

  /** No step from the `i`th on and before the `j`th touches call `c`. */
  predicate Quiet(r: Run, i: nat, j: nat, c: nat)
    requires i <= j <= |r.steps|
  {
    forall n :: i <= n < j ==> !Touches(r.steps[n], c)
  }

  lemma {:induction false} QuietLeavesCall(r: Run, i: nat, j: nat, c: nat)
    requires i <= j <= |r.steps| && Quiet(r, i, j, c) && c < r.At(i).next
    ensures SameCall(r.At(i), r.At(j), c)
    decreases j
  {
    if i < j {
      QuietLeavesCall(r, i, j - 1, c);
      assert !Touches(r.steps[j - 1], c);
      StepLeavesOthers(r.cfg, r.At(j - 1), r.steps[j - 1], c);
      assert r.At(j) == Apply(r.cfg, true, r.At(j - 1), r.steps[j - 1]);
    }
  }

  /** Clock read, membership query and signing of call `c`, with other steps between them. */
  predicate Finishes(r: Run, c: nat, clock: nat, query: nat, sign: nat) {
    && clock < query < sign < |r.steps|
    && r.steps[clock] == ReadClock(c) && r.steps[query] == AskMembership(c) && r.steps[sign] == SignToken(c)
    && Quiet(r, clock + 1, query, c) && Quiet(r, query + 1, sign, c)
  }

  /** The token that the run's `sign`th step signs for call `c`. */
  predicate Signs(r: Run, sign: nat, c: nat, origin: Origin, claims: Claims)
    requires sign < |r.steps|
  {
    var n := |r.At(sign).tokens|;
    && |r.At(sign + 1).tokens| == n + 1
    && var t := r.At(sign + 1).tokens[n];
       t.call == c && t.origin == origin && t.claims == claims
  }

  /** The query and the signing, on a call that has read its clock. */
  lemma TimedCallFinishes(r: Run, c: nat, clock: nat, query: nat, sign: nat, ph: Phase)
    requires Finishes(r, c, clock, query, sign) && c < r.At(clock + 1).next && !SignedBy(r.At(clock + 1), c)
    requires CallAt(r.At(clock + 1), c) == Some(ph) && ph.Timed?
    ensures SignedBy(r.At(sign + 1), c) <==> Answer(r.At(query).world, ph.group, ph.member) == Ok(true)
    ensures SignedBy(r.At(sign + 1), c) ==>
      Signs(r, sign, c, ph.origin,
            MintClaims(r.cfg, ph.group, ph.member, ph.at, Ceiling(r.cfg, r.At(sign).tokens, ph.origin, ph.at)))
  {
    QuietLeavesCall(r, clock + 1, query, c);
    assert r.At(query + 1) == DoAskMembership(r.At(query), c);
    QuietLeavesCall(r, query + 1, sign, c);
    assert r.At(sign + 1) == DoSign(r.cfg, r.At(sign), c);
    if Answer(r.At(query).world, ph.group, ph.member) == Ok(true) {
      assert r.At(sign + 1).tokens[|r.At(sign).tokens|].call == c;
    }
  }

  /** A call that its clock read ended stays ended. */
  lemma EndedCallSignsNothing(r: Run, c: nat, clock: nat, query: nat, sign: nat)
    requires Finishes(r, c, clock, query, sign) && c < r.At(clock + 1).next && !SignedBy(r.At(clock + 1), c)
    requires CallAt(r.At(clock + 1), c) == None
    ensures !SignedBy(r.At(sign + 1), c)
  {
    QuietLeavesCall(r, clock + 1, query, c);
    assert r.At(query + 1) == r.At(query);
    QuietLeavesCall(r, query + 1, sign, c);
    assert r.At(sign + 1) == r.At(sign);
  }

  lemma NewCallHasSignedNothing(r: Run, i: nat)
    requires r.Valid() && i <= |r.steps|
    ensures !SignedBy(r.At(i), r.At(i).next)
  {
    RunKeepsInv(r, true, i);
    forall k: nat | k < |r.At(i).tokens| ensures r.At(i).tokens[k].call < r.At(i).next {
      assert TokenOk(r.cfg, r.At(i), k);
    }
  }

  /** A call that begins at step `begin` is new, and is as it began when it comes to read its clock. */
  lemma BegunCallWaits(r: Run, begin: nat, clock: nat, c: nat, ph: Phase)
    requires r.Valid() && begin < clock < |r.steps| && c == r.At(begin).next
    requires Quiet(r, begin + 1, clock, c) && c < r.At(begin + 1).next && CallAt(r.At(begin + 1), c) == Some(ph)
    requires r.At(begin + 1).tokens == r.At(begin).tokens
    ensures CallAt(r.At(clock), c) == Some(ph) && !SignedBy(r.At(clock), c) && c < r.At(clock).next
  {
    NewCallHasSignedNothing(r, begin);
    assert !SignedBy(r.At(begin + 1), c);
    QuietLeavesCall(r, begin + 1, clock, c);
  }

  /** Completeness below the ceiling. Whatever else the system does between the steps of a Refresh, a
      token is signed exactly when the clock it read was below the ceiling's second and the group said yes
      when it was asked; and then it is the old session with new times under the old ceiling. The JIDs of
      the session's link must be ones the library reads back. */
  lemma RefreshSucceedsBelowTheCeiling(r: Run, begin: nat, clock: nat, query: nat, sign: nat, k: nat)
    requires r.Valid() && begin < clock && begin < |r.steps| && Finishes(r, r.At(begin).next, clock, query, sign)
    requires r.steps[begin] == BeginRefresh(k) && Quiet(r, begin + 1, clock, r.At(begin).next)
    requires k < |r.At(begin).tokens| && Guarantees.KnownIdentity(r.cfg, r.At(begin), k)
    ensures var c, t := r.At(begin).next, r.At(begin).tokens[k];
      var now := r.At(clock).now;
      && (SignedBy(r.At(sign + 1), c) <==>
            Unix(now) < t.claims.absolute && Answer(r.At(query).world, t.group, t.member) == Ok(true))
      && (SignedBy(r.At(sign + 1), c) ==>
            Signs(r, sign, c, FromToken(k), t.claims.(issuedAt := Unix(now), expires := Unix(now + r.cfg.recheck))))
  {
    var s, c := r.At(begin), r.At(begin).next;
    var t := s.tokens[k];
    RunKeepsInv(r, true, begin);
    Guarantees.ChainKeepsIdentity(r.cfg, s, k);
    assert r.At(begin + 1) == DoBeginRefresh(s, k);
    BegunCallWaits(r, begin, clock, c, RefreshParsed(k));
    assert k < |r.At(clock).tokens| && r.At(clock).tokens[k] == t && k < |r.At(sign).tokens| && r.At(sign).tokens[k] == t by {
      RunExtends(r, true, begin, clock);
      RunExtends(r, true, begin, sign);
    }
    RefreshReadsClock(r, clock, c, k);
    if Unix(r.At(clock).now) < t.claims.absolute {
      TimedCallFinishes(r, c, clock, query, sign, Timed(FromToken(k), t.group, t.member, r.At(clock).now));
      Guarantees.UnixOfSeconds(t.claims.absolute);
    } else {
      EndedCallSignsNothing(r, c, clock, query, sign);
    }
  }

  lemma RefreshReadsClock(r: Run, clock: nat, c: nat, k: nat)
    requires clock < |r.steps| && r.steps[clock] == ReadClock(c)
    requires CallAt(r.At(clock), c) == Some(RefreshParsed(k)) && k < |r.At(clock).tokens|
    requires var t := r.At(clock).tokens[k];
      ParsePair(r.cfg, t.claims.group, t.claims.member) == Some((t.group, t.member))
    ensures var s, s', t := r.At(clock), r.At(clock + 1), r.At(clock).tokens[k];
      && s'.tokens == s.tokens && s'.next == s.next
      && CallAt(s', c) == if Unix(s.now) < t.claims.absolute then Some(Timed(FromToken(k), t.group, t.member, s.now)) else None
  {
    assert r.At(clock + 1) == DoReadClock(r.cfg, r.At(clock), c);
  }

  lemma RedeemReadsClock(r: Run, clock: nat, c: nat, key: string, rec: NonceRecord, g: JID, m: JID)
    requires clock < |r.steps| && r.steps[clock] == ReadClock(c)
    requires CallAt(r.At(clock), c) == Some(RedeemTaken(key, rec)) && ParsePair(r.cfg, rec.group, rec.member) == Some((g, m))
    ensures var s, s' := r.At(clock), r.At(clock + 1);
      && s'.tokens == s.tokens && s'.next == s.next
      && CallAt(s', c) == if LinkLive(rec, s.now) then Some(Timed(FromLink(key), g, m, s.now)) else None
  {
    assert r.At(clock + 1) == DoReadClock(r.cfg, r.At(clock), c);
  }

  /** Likewise a Redeem that got hold of its link's record signs exactly when the clock it read was in the
      link's life, to the second, and the group said yes when it was asked. */
  lemma RedeemSucceedsWithinTheLink(r: Run, begin: nat, clock: nat, query: nat, sign: nat, nonce: string)
    requires r.Valid() && begin < clock && begin < |r.steps| && Finishes(r, r.At(begin).next, clock, query, sign)
    requires r.steps[begin] == Take(nonce, NoFault) && Quiet(r, begin + 1, clock, r.At(begin).next)
    requires nonce != "" && NONCE_PREFIX + nonce in r.At(begin).kv && NONCE_PREFIX + nonce in r.At(begin).minted
    requires var mint := r.At(begin).minted[NONCE_PREFIX + nonce];
      r.cfg.RoundTrips(mint.group) && r.cfg.RoundTrips(mint.member)
    ensures var c, key := r.At(begin).next, NONCE_PREFIX + nonce;
      var mint, now := r.At(begin).minted[key], r.At(clock).now;
      && (SignedBy(r.At(sign + 1), c) <==>
            Unix(now) <= Unix(mint.at + r.cfg.linkTtl)
            && Answer(r.At(query).world, mint.group, mint.member) == Ok(true))
      && (SignedBy(r.At(sign + 1), c) ==>
            Signs(r, sign, c, FromLink(key), MintClaims(r.cfg, mint.group, mint.member, now, now + r.cfg.sessionTtl)))
  {
    var s, c, key := r.At(begin), r.At(begin).next, NONCE_PREFIX + nonce;
    var mint := s.minted[key];
    RunKeepsInv(r, true, begin);
    assert RowOk(s, key) && MintOk(r.cfg, s, key);
    assert r.At(begin + 1) == DoTake(r.cfg, s, nonce, NoFault);
    BegunCallWaits(r, begin, clock, c, RedeemTaken(key, mint.rec));
    RedeemReadsClock(r, clock, c, key, mint.rec, mint.group, mint.member);
    if LinkLive(mint.rec, r.At(clock).now) {
      TimedCallFinishes(r, c, clock, query, sign, Timed(FromLink(key), mint.group, mint.member, r.At(clock).now));
    } else {
      EndedCallSignsNothing(r, c, clock, query, sign);
    }
  }
}
