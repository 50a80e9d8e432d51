/** Runs put together step by step, for showing that something can happen. */
module Runs {
  import opened Wrappers
  import opened Kv
  import opened Transport
  import opened Webauth
  import opened Protocol
  import opened Invariants
  import opened Sequential
  import Guarantees

  function End(r: Run): State {
    r.At(|r.steps|)
  }

  function Then(r: Run, step: Step): Run {
    r.(steps := r.steps + [step])
  }

  /** `r'` goes on from the end of `r`. */
  ghost predicate Continues(r: Run, r': Run) {
    && r'.cfg == r.cfg && r'.init == r.init && |r.steps| <= |r'.steps|
    && (forall i: nat :: i <= |r.steps| ==> r'.At(i) == r.At(i))
  }

  lemma {:induction false} PrefixIsKept(r: Run, step: Step, i: nat)
    requires i <= |r.steps|
    ensures Then(r, step).At(i) == r.At(i)
  {
    if i > 0 {
      PrefixIsKept(r, step, i - 1);
      assert Then(r, step).steps[i - 1] == r.steps[i - 1];
    }
  }

  lemma ThenTakesTheStep(r: Run, step: Step)
    ensures Continues(r, Then(r, step)) && End(Then(r, step)) == Apply(r.cfg, true, End(r), step)
  {
    forall i: nat | i <= |r.steps| ensures Then(r, step).At(i) == r.At(i) {
      PrefixIsKept(r, step, i);
    }
    var n := |r.steps|;
    assert Then(r, step).steps[n] == step;
    assert Then(r, step).At(n + 1) == Apply(r.cfg, true, Then(r, step).At(n), step);
  }

  /** Clock read, membership query and signing of call `c`, at the end of a run. */
  lemma ThenFinish(r: Run, c: nat) returns (r': Run)
    ensures Continues(r, r') && End(r') == Finish(r.cfg, End(r), c)
  {
    var r1 := Then(r, ReadClock(c));
    ThenTakesTheStep(r, ReadClock(c));
    var r2 := Then(r1, AskMembership(c));
    ThenTakesTheStep(r1, AskMembership(c));
    r' := Then(r2, SignToken(c));
    ThenTakesTheStep(r2, SignToken(c));
  }

  lemma ThenRefresh(r: Run, k: nat) returns (r': Run)
    ensures Continues(r, r') && End(r') == RefreshAlone(r.cfg, End(r), k)
  {
    var r1 := Then(r, BeginRefresh(k));
    ThenTakesTheStep(r, BeginRefresh(k));
    r' := ThenFinish(r1, End(r).next);
  }

  lemma ThenRedeem(r: Run, nonce: string) returns (r': Run)
    ensures Continues(r, r') && End(r') == RedeemAlone(r.cfg, End(r), nonce)
  {
    var r1 := Then(r, Take(nonce, NoFault));
    ThenTakesTheStep(r, Take(nonce, NoFault));
    r' := ThenFinish(r1, End(r).next);
  }

  function Beginning(now: int, w: World): State {
    State(now, w, map[], map[], 0, map[], map[], {}, [])
  }

  /** A link for (g, m) has been minted and stored. */
  lemma Minted(cfg: Config, now: int, w: World, g: JID, m: JID) returns (r: Run)
    requires cfg.Valid() && Usable(g, m)
    ensures r.Valid() && r.cfg == cfg
    ensures var s, key := End(r), NONCE_PREFIX + "n";
      && s.now == now && s.world == w && s.calls == map[] && s.next == 1 && s.tokens == []
      && s.minted == map[key := Minting(g, m, now, 0, NewRecord(cfg, g, m, now))]
      && key in s.kv && s.kv[key].value == NewRecord(cfg, g, m, now)
  {
    var s0, rec := Beginning(now, w), NewRecord(cfg, g, m, now);
    var r0 := Run(cfg, s0, []);
    var r1 := Then(r0, BeginMint(g, m, NoFault));
    ThenTakesTheStep(r0, BeginMint(g, m, NoFault));
    assert End(r1).calls == map[0 := MintSwept(g, m)] && End(r1).kv == map[];
    var r2 := Then(r1, Generate(0, "n"));
    ThenTakesTheStep(r1, Generate(0, "n"));
    assert End(r2).calls == map[0 := MintReady(NONCE_PREFIX + "n", rec)];
    r := Then(r2, Store(0, NoFault));
    ThenTakesTheStep(r2, Store(0, NoFault));
  }

  /** (g, m) has logged in at `now` and nothing else has happened. */
  lemma LoggedIn(cfg: Config, now: int, w: World, g: JID, m: JID) returns (r: Run)
    requires cfg.Valid() && cfg.RoundTrips(g) && cfg.RoundTrips(m) && Answer(w, g, m) == Ok(true)
    ensures r.Valid() && r.cfg == cfg
    ensures var s := End(r);
      && s.now == now && s.world == w && |s.tokens| == 1
      && s.tokens[0].claims == MintClaims(cfg, g, m, now, now + cfg.sessionTtl)
      && s.tokens[0].group == g && s.tokens[0].member == m
      && Guarantees.KnownIdentity(cfg, s, 0)
  {
    var r0 := Minted(cfg, now, w, g, m);
    var key := NONCE_PREFIX + "n";
    r := ThenRedeem(r0, "n");
    RedeemAloneMeetsItsSpec(cfg, End(r0), "n");
    MintedRecordRedeems(cfg, g, m, now, now, w);
    assert End(r).minted[key].group == g && End(r).minted[key].member == m && key in End(r).minted by {
      RunExtends(r, true, |r0.steps|, |r.steps|);
    }
    RunKeepsInv(r, true, |r.steps|);
    Guarantees.ChainKeepsIdentity(cfg, End(r), 0);
  }
}
