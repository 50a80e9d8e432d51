/**
 Calls that nothing comes between: the steps of one Redeem or one Refresh, run one after the other,
 do what the specification of the class's method says.
*/
module Sequential {
  import opened Wrappers
  import opened Time
  import opened Kv
  import opened Transport
  import opened Json
  import opened Webauth
  import opened Protocol
  import Token

  /** `after` is `before` with one more token, signed by call `c` on a clock read at `at`. */
  predicate Adds(before: seq<Issued>, after: seq<Issued>, claims: Claims, origin: Origin, c: nat, at: int) {
    |after| == |before| + 1 && before <= after
    && var t := after[|before|];
       t.claims == claims && t.origin == origin && t.call == c && t.at == at
  }

  /** Clock, membership query and signing of call `c`. */
  function Finish(cfg: Config, s: State, c: nat): State {
    DoSign(cfg, DoAskMembership(DoReadClock(cfg, s, c), c), c)
  }

  function RefreshAlone(cfg: Config, s: State, k: nat): State {
    Finish(cfg, DoBeginRefresh(s, k), s.next)
  }

  function RedeemAlone(cfg: Config, s: State, nonce: string): State {
    Finish(cfg, DoTake(cfg, s, nonce, NoFault), s.next)
  }

  lemma FinishTimed(cfg: Config, s: State, c: nat, origin: Origin, g: JID, m: JID)
    requires c in s.calls && s.calls[c] == Timed(origin, g, m, s.now)
    ensures var s' := DoSign(cfg, DoAskMembership(s, c), c);
      && s'.kv == s.kv && s'.now == s.now && s'.world == s.world
      && (Answer(s.world, g, m) != Ok(true) ==> s'.tokens == s.tokens)
      && (Answer(s.world, g, m) == Ok(true) ==>
            Adds(s.tokens, s'.tokens, MintClaims(cfg, g, m, s.now, Ceiling(cfg, s.tokens, origin, s.now)), origin, c, s.now))
  {
    var s1 := DoAskMembership(s, c);
    if Answer(s.world, g, m) == Ok(true) {
      assert s1.calls[c] == Checked(origin, g, m, s.now, s.now);
    } else {
      assert c !in s1.calls;
    }
  }

  /** A Refresh that nothing comes between signs what `RefreshClaims`, the specification of the
      class's method, says, and signs nothing when that says nothing. */
  lemma RefreshAloneMeetsItsSpec(cfg: Config, s: State, k: nat)
    requires k < |s.tokens| && Token.Complete(s.tokens[k].claims)
    ensures var signed := RefreshClaims(cfg, s.tokens[k].claims, s.now, s.world);
      var s' := RefreshAlone(cfg, s, k);
      && s'.now == s.now && s'.world == s.world
      && (signed.None? ==> s'.tokens == s.tokens)
      && (signed.Some? ==> Adds(s.tokens, s'.tokens, signed.value, FromToken(k), s.next, s.now))
  {
    var c, claims := s.next, s.tokens[k].claims;
    var s1 := DoBeginRefresh(s, k);
    assert s1.calls[c] == RefreshParsed(k);
    var pair := ParsePair(cfg, claims.group, claims.member);
    if Unix(s.now) < claims.absolute && pair.Some? {
      var s2 := Advance(s1, c, Timed(FromToken(k), pair.value.0, pair.value.1, s.now));
      assert DoReadClock(cfg, s1, c) == s2;
      FinishTimed(cfg, s2, c, FromToken(k), pair.value.0, pair.value.1);
    } else {
      assert DoReadClock(cfg, s1, c) == Drop(s1, c);
    }
  }

  function Stored(s: State, nonce: string): Option<NonceRecord> {
    if nonce == "" then None else Lookup(s.kv, NONCE_PREFIX + nonce)
  }

  /** Likewise for Redeem, whether or not the link is there; in single-use mode its record goes. */
  lemma RedeemAloneMeetsItsSpec(cfg: Config, s: State, nonce: string)
    requires s.next !in s.calls
    ensures var rec := Stored(s, nonce);
      var signed := if rec.None? then None else RedeemClaims(cfg, rec.value, s.now, s.world);
      var s' := RedeemAlone(cfg, s, nonce);
      && (signed.None? ==> s'.tokens == s.tokens)
      && (signed.Some? ==> Adds(s.tokens, s'.tokens, signed.value, FromLink(NONCE_PREFIX + nonce), s.next, s.now))
      && s'.kv == if cfg.singleUse && nonce != "" then Remove(s.kv, NONCE_PREFIX + nonce) else s.kv
  {
    var c, key := s.next, NONCE_PREFIX + nonce;
    var s1 := DoTake(cfg, s, nonce, NoFault);
    if nonce == "" || key !in s.kv {
      assert s1.calls == s.calls && Finish(cfg, s1, c) == s1;
    } else {
      var rec := s.kv[key].value;
      assert s1.calls[c] == RedeemTaken(key, rec);
      var pair := ParsePair(cfg, rec.group, rec.member);
      if LinkLive(rec, s.now) && pair.Some? {
        var s2 := Advance(s1, c, Timed(FromLink(key), pair.value.0, pair.value.1, s.now));
        assert DoReadClock(cfg, s1, c) == s2;
        FinishTimed(cfg, s2, c, FromLink(key), pair.value.0, pair.value.1);
      } else {
        assert DoReadClock(cfg, s1, c) == Drop(s1, c);
      }
    }
  }

  function MintAlone(cfg: Config, s: State, g: JID, m: JID, nonce: string, sweep: Fault, store: Fault): State {
    DoStore(DoGenerate(cfg, DoBeginMint(cfg, true, s, g, m, sweep), s.next, nonce), s.next, store)
  }

  /** And for MintLink with a fresh nonce, whatever becomes of its two statements. */
  lemma MintAloneMeetsItsSpec(cfg: Config, s: State, g: JID, m: JID, nonce: string, sweep: Fault, store: Fault)
    requires NONCE_PREFIX + nonce !in s.minted && s.next !in s.calls
    ensures !Usable(g, m) ==> MintAlone(cfg, s, g, m, nonce, sweep, store) == s
    ensures Usable(g, m) ==>
      var swept := if sweep == FailedBefore then s.kv else Sweep(s.kv, NONCE_PREFIX, cfg.linkTtl, Unix(s.now));
      var s' := MintAlone(cfg, s, g, m, nonce, sweep, store);
      && s'.kv == (if store == FailedBefore then swept
                   else Put(swept, NONCE_PREFIX + nonce, NewRecord(cfg, g, m, s.now), Unix(s.now)))
      && s'.tokens == s.tokens
  {
    if Usable(g, m) {
      var s1 := DoBeginMint(cfg, true, s, g, m, sweep);
      assert s1.calls[s.next] == MintSwept(g, m);
      var s2 := DoGenerate(cfg, s1, s.next, nonce);
      assert s2.calls[s.next] == MintReady(NONCE_PREFIX + nonce, NewRecord(cfg, g, m, s.now));
    }
  }

  /** The four steps of a Redeem in a run. */
  lemma RunOfRedeem(r: Run, gc: bool, i: nat, nonce: string)
    requires i + 4 <= |r.steps|
    requires var c := r.StateWith(gc, i).next;
      r.steps[i] == Take(nonce, NoFault) && r.steps[i + 1] == ReadClock(c)
      && r.steps[i + 2] == AskMembership(c) && r.steps[i + 3] == SignToken(c)
    ensures r.StateWith(gc, i + 4) == RedeemAlone(r.cfg, r.StateWith(gc, i), nonce)
  {
    var s, c := r.StateWith(gc, i), r.StateWith(gc, i).next;
    assert r.StateWith(gc, i + 1) == DoTake(r.cfg, s, nonce, NoFault);
    assert r.StateWith(gc, i + 2) == DoReadClock(r.cfg, r.StateWith(gc, i + 1), c);
    assert r.StateWith(gc, i + 3) == DoAskMembership(r.StateWith(gc, i + 2), c);
  }
}
