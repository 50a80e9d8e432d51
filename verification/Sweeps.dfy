/**
 Garbage collection. MintLink sweeps stale nonces; the system with sweeps is compared with the same
 system without them, step by step on the same run.
*/
module Sweeps {
  import opened Wrappers
  import opened Time
  import opened Kv
  import opened Transport
  import opened Json
  import opened Webauth
  import opened Protocol
  import opened Invariants
  import opened Sequential
  import Token

  // ---------------------------------------------------------------------------------------------
  // Sweeps change no outcome
  // ---------------------------------------------------------------------------------------------

  ghost predicate SameHistory(s: State, u: State) {
    && s.now == u.now && s.world == u.world && s.next == u.next
    && s.minted == u.minted && s.checks == u.checks && s.tokens == u.tokens
  }

  /** The unswept store has the swept one's rows, and otherwise only rows of expired links. */
  ghost predicate SameRows(kv: Table<NonceRecord>, kv': Table<NonceRecord>, now: int) {
    && (forall key :: key in kv ==> key in kv' && kv'[key] == kv[key])
    && (forall key :: key in kv' && key !in kv ==> !LinkLive(kv'[key].value, now))
  }

  /** The unswept system has the same calls in flight, and otherwise only Redeem calls that took the
      record of an expired link and have yet to find out. */
  ghost predicate SameCalls(calls: map<nat, Phase>, calls': map<nat, Phase>, now: int) {
    && (forall c :: c in calls ==> c in calls' && calls'[c] == calls[c])
    && (forall c :: c in calls' && c !in calls ==> calls'[c].RedeemTaken? && !LinkLive(calls'[c].rec, now))
  }

  /** What the two systems may differ in. The book-keeping of takings may differ with the rows. */
  ghost predicate Same(s: State, u: State) {
    SameHistory(s, u) && SameRows(s.kv, u.kv, u.now) && SameCalls(s.calls, u.calls, u.now)
  }

  lemma DropBoth(s: State, u: State, c: nat)
    requires Same(s, u)
    ensures Same(Drop(s, c), Drop(u, c))
  {
  }

  lemma AdvanceBoth(calls: map<nat, Phase>, calls': map<nat, Phase>, now: int, c: nat, ph: Phase)
    requires SameCalls(calls, calls', now)
    ensures SameCalls(calls[c := ph], calls'[c := ph], now)
  {
  }

  /** For a whole-second lifetime, a swept row's link is past its expiry second. */
  lemma StaleIsExpired(cfg: Config, s: State, key: string)
    requires cfg.Valid() && WholeSeconds(cfg.linkTtl)
    requires key in s.kv && RowOk(s, key) && MintOk(cfg, s, key)
    requires Stale(s.kv[key].updated, cfg.linkTtl, Unix(s.now))
    ensures !LinkLive(s.kv[key].value, s.now)
  {
  }

  lemma BeginMintKeepsSame(cfg: Config, s: State, u: State, g: JID, m: JID, fault: Fault)
    requires cfg.Valid() && WholeSeconds(cfg.linkTtl) && Inv(cfg, s) && Same(s, u)
    ensures Same(DoBeginMint(cfg, true, s, g, m, fault), DoBeginMint(cfg, false, u, g, m, fault))
  {
    if Usable(g, m) {
      var s', u' := DoBeginMint(cfg, true, s, g, m, fault), DoBeginMint(cfg, false, u, g, m, fault);
      forall key | key in u'.kv && key !in s'.kv ensures !LinkLive(u'.kv[key].value, u'.now) {
        if key in s.kv {
          assert RowOk(s, key) && MintOk(cfg, s, key);
          StaleIsExpired(cfg, s, key);
        }
      }
    }
  }

  lemma GenerateKeepsSame(cfg: Config, s: State, u: State, c: nat, nonce: string)
    requires Same(s, u)
    ensures Same(DoGenerate(cfg, s, c, nonce), DoGenerate(cfg, u, c, nonce))
  {
    if c in s.calls && s.calls[c].MintSwept? {
      var key := NONCE_PREFIX + nonce;
      AdvanceBoth(s.calls, u.calls, u.now, c, MintReady(key, NewRecord(cfg, s.calls[c].group, s.calls[c].member, s.now)));
    }
  }

  lemma StoreKeepsSame(s: State, u: State, c: nat, fault: Fault)
    requires Same(s, u)
    ensures Same(DoStore(s, c, fault), DoStore(u, c, fault))
  {
  }

  lemma FailedTakeKeepsSame(cfg: Config, s: State, u: State, nonce: string, fault: Fault)
    requires Same(s, u) && (nonce == "" || fault != NoFault)
    ensures Same(DoTake(cfg, s, nonce, fault), DoTake(cfg, u, nonce, fault))
  {
  }

  /** The interesting case: a Redeem that misses in the swept store may hit an expired row in the
      other; it then holds a record that the clock test is bound to refuse. */
  lemma TakeKeepsSame(cfg: Config, s: State, u: State, nonce: string, fault: Fault)
    requires Inv(cfg, s) && Same(s, u)
    ensures Same(DoTake(cfg, s, nonce, fault), DoTake(cfg, u, nonce, fault))
  {
    if nonce == "" || fault != NoFault {
      FailedTakeKeepsSame(cfg, s, u, nonce, fault);
    } else {
      var key := NONCE_PREFIX + nonce;
      assert s.next !in s.calls;
      assert SameRows(Remove(s.kv, key), Remove(u.kv, key), u.now);
      if key in s.kv {
        AdvanceBoth(s.calls, u.calls, u.now, s.next, RedeemTaken(key, s.kv[key].value));
      } else if key in u.kv {
        assert SameCalls(s.calls, u.calls[s.next := RedeemTaken(key, u.kv[key].value)], u.now);
      } else {
        assert DoTake(cfg, s, nonce, fault).calls == s.calls;
      }
    }
  }

  lemma ReadClockKeepsSame(cfg: Config, s: State, u: State, c: nat)
    requires Same(s, u)
    ensures Same(DoReadClock(cfg, s, c), DoReadClock(cfg, u, c))
  {
    DropBoth(s, u, c);
    if c in s.calls && s.calls[c].RedeemTaken? {
      if c in DoReadClock(cfg, s, c).calls {
        AdvanceBoth(s.calls, u.calls, u.now, c, DoReadClock(cfg, s, c).calls[c]);
      }
    } else if c in s.calls && s.calls[c].RefreshParsed? {
      if c in DoReadClock(cfg, s, c).calls {
        AdvanceBoth(s.calls, u.calls, u.now, c, DoReadClock(cfg, s, c).calls[c]);
      }
    } else if c !in s.calls && c in u.calls {
      assert DoReadClock(cfg, u, c) == Drop(u, c) && Drop(s, c).calls == s.calls;
    }
  }

  lemma BeginRefreshKeepsSame(s: State, u: State, token: nat)
    requires Same(s, u)
    ensures Same(DoBeginRefresh(s, token), DoBeginRefresh(u, token))
  {
    if token < |s.tokens| && Token.Complete(s.tokens[token].claims) {
      AdvanceBoth(s.calls, u.calls, u.now, s.next, RefreshParsed(token));
    } else {
      assert DoBeginRefresh(s, token) == s.(next := s.next + 1);
    }
  }

  lemma AskMembershipKeepsSame(s: State, u: State, c: nat)
    requires Same(s, u)
    ensures Same(DoAskMembership(s, c), DoAskMembership(u, c))
  {
    if c in s.calls && s.calls[c].Timed? {
      DropBoth(s, u, c);
      var ph := s.calls[c];
      AdvanceBoth(s.calls, u.calls, u.now, c, Checked(ph.origin, ph.group, ph.member, ph.at, s.now));
    }
  }

  lemma SignKeepsSame(cfg: Config, s: State, u: State, c: nat)
    requires Same(s, u)
    ensures Same(DoSign(cfg, s, c), DoSign(cfg, u, c))
  {
  }

  lemma StepKeepsSame(cfg: Config, s: State, u: State, step: Step)
    requires cfg.Valid() && WholeSeconds(cfg.linkTtl) && Inv(cfg, s) && Same(s, u)
    ensures Same(Apply(cfg, true, s, step), Apply(cfg, false, u, step))
  {
    match step
    case BeginMint(g, m, fault) => BeginMintKeepsSame(cfg, s, u, g, m, fault);
    case Generate(c, nonce) => GenerateKeepsSame(cfg, s, u, c, nonce);
    case Store(c, fault) => StoreKeepsSame(s, u, c, fault);
    case Take(nonce, fault) => TakeKeepsSame(cfg, s, u, nonce, fault);
    case BeginRefresh(t) => BeginRefreshKeepsSame(s, u, t);
    case ReadClock(c) => ReadClockKeepsSame(cfg, s, u, c);
    case AskMembership(c) => AskMembershipKeepsSame(s, u, c);
    case SignToken(c) => SignKeepsSame(cfg, s, u, c);
    case Tick(_) =>
    case Change(_) =>
    case Restart =>
    case Abandon(_) =>
  }

  lemma {:induction false} RunKeepsSame(r: Run, i: nat)
    requires r.Valid() && WholeSeconds(r.cfg.linkTtl) && i <= |r.steps|
    ensures Same(r.StateWith(true, i), r.StateWith(false, i))
  {
    if i > 0 {
      RunKeepsSame(r, i - 1);
      RunKeepsInv(r, true, i - 1);
      StepKeepsSame(r.cfg, r.StateWith(true, i - 1), r.StateWith(false, i - 1), r.steps[i - 1]);
    }
  }

  // ---------------------------------------------------------------------------------------------
  // Only for whole seconds
  // ---------------------------------------------------------------------------------------------

  /** A link minted just late enough in its second, then a sweep and a redemption in its expiry
      second. */
  function LateRedeem(cfg: Config, w: World, g: JID, m: JID): Run
    requires cfg.linkTtl >= 0
  {
    Run(cfg, State(SECOND - cfg.linkTtl % SECOND, w, map[], map[], 0, map[], map[], {}, []),
        [BeginMint(g, m, NoFault), Generate(0, "n"), Store(0, NoFault), Tick(cfg.linkTtl), BeginMint(g, m, NoFault),
         Take("n", NoFault), ReadClock(2), AskMembership(2), SignToken(2)])
  }

  function LateRecord(cfg: Config, g: JID, m: JID): NonceRecord {
    NonceRecord(cfg.format(g), cfg.format(m), cfg.linkTtl / SECOND + 1)
  }

  lemma Unroll(r: Run, gc: bool, i: nat)
    requires i < |r.steps|
    ensures r.StateWith(gc, i + 1) == Apply(r.cfg, gc, r.StateWith(gc, i), r.steps[i])
  {
  }

  lemma LateRedeemGenerates(cfg: Config, w: World, g: JID, m: JID, gc: bool)
    requires cfg.Valid() && !WholeSeconds(cfg.linkTtl) && Usable(g, m)
    ensures var s := LateRedeem(cfg, w, g, m).StateWith(gc, 2);
      && s.calls == map[0 := MintReady(NONCE_PREFIX + "n", LateRecord(cfg, g, m))] && s.kv == map[]
      && s.now == SECOND - cfg.linkTtl % SECOND && s.world == w && s.next == 1 && s.tokens == []
  {
    var r := LateRedeem(cfg, w, g, m);
    LateExpiry(cfg.linkTtl);
    Unroll(r, gc, 0);
    var s1 := DoBeginMint(cfg, gc, r.init, g, m, NoFault);
    assert s1.kv == map[] && s1.calls == map[0 := MintSwept(g, m)];
    Unroll(r, gc, 1);
    assert DoGenerate(cfg, s1, 0, "n").calls == map[0 := MintReady(NONCE_PREFIX + "n", LateRecord(cfg, g, m))];
  }

  lemma LateRedeemStores(cfg: Config, w: World, g: JID, m: JID, gc: bool)
    requires cfg.Valid() && !WholeSeconds(cfg.linkTtl) && Usable(g, m)
    ensures var s := LateRedeem(cfg, w, g, m).StateWith(gc, 4);
      && s.kv == map[NONCE_PREFIX + "n" := Row(LateRecord(cfg, g, m), 0)]
      && s.now == (cfg.linkTtl / SECOND + 1) * SECOND && s.world == w
      && s.calls == map[] && s.next == 1 && s.tokens == []
  {
    var r := LateRedeem(cfg, w, g, m);
    LateExpiry(cfg.linkTtl);
    LateRedeemGenerates(cfg, w, g, m, gc);
    Unroll(r, gc, 2);
    var s3 := DoStore(r.StateWith(gc, 2), 0, NoFault);
    assert s3.kv == map[NONCE_PREFIX + "n" := Row(LateRecord(cfg, g, m), 0)] && s3.calls == map[];
    Unroll(r, gc, 3);
  }

  lemma LateExpiry(ttl: int)
    requires ttl > 0 && !WholeSeconds(ttl)
    ensures var late := SECOND - ttl % SECOND;
      late + ttl == (ttl / SECOND + 1) * SECOND && Unix(late) == 0 && Unix(late + ttl) == ttl / SECOND + 1
  {
  }

  lemma NoncePrefixIsPlain()
    ensures NoWildcards(NONCE_PREFIX)
  {
  }

  lemma SweepReachesNonces(nonce: string)
    ensures Like(NONCE_PREFIX + "%", NONCE_PREFIX + nonce)
  {
    NoncePrefixIsPlain();
    var key := NONCE_PREFIX + nonce;
    assert forall i :: 0 <= i < |NONCE_PREFIX| ==> NONCE_PREFIX[i] == key[i];
    LikePrefix(NONCE_PREFIX, key);
  }

  /** With sweeps the late redemption finds nothing. */
  lemma LateRedeemSwept(cfg: Config, w: World, g: JID, m: JID)
    requires cfg.Valid() && !WholeSeconds(cfg.linkTtl) && Usable(g, m)
    ensures LateRedeem(cfg, w, g, m).StateWith(true, 9).tokens == []
  {
    var r := LateRedeem(cfg, w, g, m);
    LateRedeemStores(cfg, w, g, m, true);
    Unroll(r, true, 4);
    var s5 := r.StateWith(true, 5);
    assert s5.kv == map[] by {
      SweepReachesNonces("n");
    }
    RunOfRedeem(r, true, 5, "n");
    RedeemAloneMeetsItsSpec(cfg, s5, "n");
  }

  /** Without sweeps it succeeds. */
  lemma LateRedeemUnswept(cfg: Config, w: World, g: JID, m: JID)
    requires cfg.Valid() && !WholeSeconds(cfg.linkTtl) && Answer(w, g, m) == Ok(true)
    requires cfg.RoundTrips(g) && cfg.RoundTrips(m)
    ensures |LateRedeem(cfg, w, g, m).StateWith(false, 9).tokens| == 1
  {
    var r := LateRedeem(cfg, w, g, m);
    LateRedeemStores(cfg, w, g, m, false);
    Unroll(r, false, 4);
    var s5 := r.StateWith(false, 5);
    assert LinkLive(LateRecord(cfg, g, m), s5.now);
    RunOfRedeem(r, false, 5, "n");
    RedeemAloneMeetsItsSpec(cfg, s5, "n");
  }

  /** On every run, sweeping leaves every outcome as it would be without sweeps, exactly when the
      link lifetime is a whole number of seconds. */
  ghost predicate SweepsChangeNothing(cfg: Config) {
    forall init: State, steps: seq<Step>, i: nat :: Initial(init) && i <= |steps| ==>
      Run(cfg, init, steps).StateWith(true, i).tokens == Run(cfg, init, steps).StateWith(false, i).tokens
  }

  /** (g, m) is anyone the protocol could let in; without such a pair there is nothing to compare. */
  lemma SweepsChangeNothingForWholeSeconds(cfg: Config, w: World, g: JID, m: JID)
    requires cfg.Valid() && Answer(w, g, m) == Ok(true) && cfg.RoundTrips(g) && cfg.RoundTrips(m)
    ensures SweepsChangeNothing(cfg) <==> WholeSeconds(cfg.linkTtl)
  {
    if WholeSeconds(cfg.linkTtl) {
      forall init: State, steps: seq<Step>, i: nat | Initial(init) && i <= |steps|
        ensures Run(cfg, init, steps).StateWith(true, i).tokens == Run(cfg, init, steps).StateWith(false, i).tokens
      {
        RunKeepsSame(Run(cfg, init, steps), i);
      }
    } else {
      var r := LateRedeem(cfg, w, g, m);
      LateRedeemSwept(cfg, w, g, m);
      LateRedeemUnswept(cfg, w, g, m);
      assert Run(cfg, r.init, r.steps).StateWith(true, 9).tokens != Run(cfg, r.init, r.steps).StateWith(false, 9).tokens;
    }
  }

  // ---------------------------------------------------------------------------------------------
  // The store stays bounded
  // ---------------------------------------------------------------------------------------------

  /** Every row was written by a Store step of the run, in the second it carries. */
  lemma {:induction false} RowWasStored(r: Run, i: nat, key: string) returns (j: nat)
    requires r.Valid() && i <= |r.steps| && key in r.At(i).kv
    ensures j < i && StoresKey(r, j) == Some(key) && Unix(r.At(j).now) == r.At(i).kv[key].updated
  {
    assert i > 0;
    j := i - 1;
    if KeptRow(r.At(j).kv, r.At(i).kv, key) {
      j := RowWasStored(r, i - 1, key);
    } else {
      StoreOnly(r, j, key);
    }
  }

  predicate KeptRow(t: Table<NonceRecord>, t': Table<NonceRecord>, key: string) {
    key in t && key in t' && t[key] == t'[key]
  }

  lemma StoreOnly(r: Run, j: nat, key: string)
    requires j < |r.steps| && key in r.At(j + 1).kv
    requires !KeptRow(r.At(j).kv, r.At(j + 1).kv, key)
    ensures StoresKey(r, j) == Some(key) && r.At(j + 1).kv[key].updated == Unix(r.At(j).now)
  {
    Unroll(r, true, j);
    OnlyStoreWrites(r.cfg, r.At(j), r.steps[j], key);
  }

  /** The key that step `j` of the run writes, if it is a Store step that writes one. */
  function StoresKey(r: Run, j: nat): Option<string>
    requires j < |r.steps|
  {
    match r.steps[j]
    case Store(c, _) => if c in r.At(j).calls && r.At(j).calls[c].MintReady? then Some(r.At(j).calls[c].key) else None
    case _ => None
  }

  lemma OnlyStoreWrites(cfg: Config, s: State, step: Step, key: string)
    requires key in Apply(cfg, true, s, step).kv
    requires !(key in s.kv && s.kv[key] == Apply(cfg, true, s, step).kv[key])
    ensures step.Store? && step.call in s.calls && s.calls[step.call].MintReady? && s.calls[step.call].key == key
    ensures Apply(cfg, true, s, step).kv[key].updated == Unix(s.now)
  {
    match step
    case Store(_, _) =>
    case BeginMint(_, _, _) =>
    case Take(_, _) =>
    case _ =>
  }

  /** The steps of the run that stored a link less than LinkTTL + 1s before state `i`. */
  function RecentStores(r: Run, i: nat): set<nat>
    requires i <= |r.steps|
  {
    set j: nat | j < i && StoresKey(r, j).Some? && r.At(j).now > r.At(i).now - r.cfg.linkTtl - SECOND
  }

  /** Right after a sweep, every remaining row was stored less than LinkTTL + 1s ago, so there are at
      most as many rows as links stored in that time. */
  lemma StoreStaysBounded(r: Run, i: nat)
    requires r.Valid() && i < |r.steps|
    requires r.steps[i].BeginMint? && Usable(r.steps[i].group, r.steps[i].member) && r.steps[i].fault != FailedBefore
    ensures |r.At(i + 1).kv| <= |RecentStores(r, i + 1)|
  {
    var s := r.At(i + 1);
    RunKeepsInv(r, true, i + 1);
    forall key | key in s.kv ensures exists j: nat :: j in RecentStores(r, i + 1) && StoresKey(r, j) == Some(key) {
      var j := RowWasStored(r, i + 1, key);
      assert RowOk(s, key) && MintOk(r.cfg, s, key);
      SweepReachesNonces(key[|NONCE_PREFIX|..]);
      assert NONCE_PREFIX + key[|NONCE_PREFIX|..] == key;
      assert !Stale(s.kv[key].updated, r.cfg.linkTtl, Unix(s.now));
      RecentEnough(r.At(j).now, s.now, r.cfg.linkTtl);
      assert j in RecentStores(r, i + 1);
    }
    CountByStep(r, s.kv.Keys, RecentStores(r, i + 1));
  }

  /** How many steps from the `i`th on and before the `j`th stored a link. */
  function StoresSince(r: Run, i: nat, j: nat): nat
    requires j <= |r.steps|
    decreases j
  {
    if j <= i then 0 else StoresSince(r, i, j - 1) + if StoresKey(r, j - 1).Some? then 1 else 0
  }

  /** A step adds at most the row it stores. */
  lemma StepAddsOne(r: Run, n: nat)
    requires n < |r.steps|
    ensures |r.At(n + 1).kv| <= |r.At(n).kv| + if StoresKey(r, n).Some? then 1 else 0
  {
    var before, after := r.At(n).kv.Keys, r.At(n + 1).kv.Keys;
    forall key | key in after && key !in before ensures StoresKey(r, n) == Some(key) {
      StoreOnly(r, n, key);
    }
    if StoresKey(r, n).Some? {
      assert after <= before + {StoresKey(r, n).value};
      FewerKeys(after, before + {StoresKey(r, n).value});
    } else {
      FewerKeys(after, before);
    }
  }

  lemma {:induction false} FewerKeys(a: set<string>, b: set<string>)
    requires a <= b
    ensures |a| <= |b|
    decreases |a|
  {
    if a != {} {
      var x :| x in a;
      FewerKeys(a - {x}, b - {x});
    }
  }

  /** At any time, there are at most as many rows as links stored in the last LinkTTL + 1s before some sweep
      and since that sweep, the last one for instance. */
  lemma {:induction false} StoreStaysBoundedBetweenSweeps(r: Run, i: nat, j: nat)
    requires r.Valid() && i < j <= |r.steps|
    requires r.steps[i].BeginMint? && Usable(r.steps[i].group, r.steps[i].member) && r.steps[i].fault != FailedBefore
    ensures |r.At(j).kv| <= |RecentStores(r, i + 1)| + StoresSince(r, i + 1, j)
    decreases j
  {
    if j == i + 1 {
      StoreStaysBounded(r, i);
    } else {
      StoreStaysBoundedBetweenSweeps(r, i, j - 1);
      StepAddsOne(r, j - 1);
    }
  }

  lemma RecentEnough(stored: int, now: int, ttl: int)
    requires ttl > 0 && Unix(stored) >= Unix(now) - ttl / SECOND
    ensures stored > now - ttl - SECOND
  {
  }

  /** Each step stores one key, so keys are no more than the steps that stored them. */
  lemma {:induction false} CountByStep(r: Run, keys: set<string>, steps: set<nat>)
    requires forall j :: j in steps ==> j < |r.steps|
    requires forall key :: key in keys ==> exists j: nat :: j in steps && StoresKey(r, j) == Some(key)
    ensures |keys| <= |steps|
    decreases |keys|
  {
    if keys != {} {
      var key :| key in keys;
      var j: nat :| j in steps && StoresKey(r, j) == Some(key);
      forall k | k in keys - {key} ensures exists i: nat :: i in steps - {j} && StoresKey(r, i) == Some(k) {
        var i: nat :| i in steps && StoresKey(r, i) == Some(k);
        assert i in steps - {j};
      }
      CountByStep(r, keys - {key}, steps - {j});
    }
  }
}
