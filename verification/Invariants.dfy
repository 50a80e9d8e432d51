/** What every step of the login protocol keeps. */
module Invariants {
  import opened Wrappers
  import opened Time
  import opened Kv
  import opened Transport
  import opened Webauth
  import opened Protocol

  // ---------------------------------------------------------------------------------------------
  // History only grows
  // ---------------------------------------------------------------------------------------------

  ghost predicate Extends(s: State, s': State) {
    && s.now <= s'.now
    && s.next <= s'.next
    && s.tokens <= s'.tokens
    && s.checks <= s'.checks
    && (forall key :: key in s.minted ==> key in s'.minted && s'.minted[key] == s.minted[key])
    && (forall key :: key in s.taken ==> key in s'.taken)
  }

  lemma GenerateExtends(cfg: Config, s: State, c: nat, nonce: string)
    ensures Extends(s, DoGenerate(cfg, s, c, nonce))
  {
  }

  lemma TakeExtends(cfg: Config, s: State, nonce: string, fault: Fault)
    ensures Extends(s, DoTake(cfg, s, nonce, fault))
  {
  }

  lemma MintExtends(cfg: Config, gc: bool, s: State, g: JID, m: JID, c: nat, fault: Fault)
    ensures Extends(s, DoBeginMint(cfg, gc, s, g, m, fault))
    ensures Extends(s, DoStore(s, c, fault))
  {
  }

  lemma BeginRefreshExtends(s: State, token: nat)
    ensures Extends(s, DoBeginRefresh(s, token))
  {
  }

  lemma ReadClockExtends(cfg: Config, s: State, c: nat)
    ensures Extends(s, DoReadClock(cfg, s, c))
  {
    var s' := DoReadClock(cfg, s, c);
    assert s' == s.(calls := s'.calls);
  }

  lemma SignExtends(cfg: Config, s: State, c: nat)
    ensures Extends(s, DoAskMembership(s, c))
    ensures Extends(s, DoSign(cfg, s, c))
  {
  }

  lemma StepExtends(cfg: Config, gc: bool, s: State, step: Step)
    ensures Extends(s, Apply(cfg, gc, s, step))
  {
    match step
    case BeginMint(g, m, fault) => MintExtends(cfg, gc, s, g, m, 0, fault);
    case Generate(c, nonce) => GenerateExtends(cfg, s, c, nonce);
    case Store(c, fault) => MintExtends(cfg, gc, s, JID("", 0, 0, ""), JID("", 0, 0, ""), c, fault);
    case Take(nonce, fault) => TakeExtends(cfg, s, nonce, fault);
    case BeginRefresh(t) => BeginRefreshExtends(s, t);
    case ReadClock(c) => ReadClockExtends(cfg, s, c);
    case AskMembership(c) => SignExtends(cfg, s, c);
    case SignToken(c) => SignExtends(cfg, s, c);
    case Tick(_) =>
    case Change(_) =>
    case Restart =>
    case Abandon(_) =>
  }

  lemma {:induction false} RunExtends(r: Run, gc: bool, i: nat, j: nat)
    requires i <= j <= |r.steps|
    ensures Extends(r.StateWith(gc, i), r.StateWith(gc, j))
    decreases j
  {
    if i < j {
      RunExtends(r, gc, i, j - 1);
      StepExtends(r.cfg, gc, r.StateWith(gc, j - 1), r.steps[j - 1]);
      PrefixTransitive(r.StateWith(gc, i).tokens, r.StateWith(gc, j - 1).tokens, r.StateWith(gc, j).tokens);
    }
  }

  lemma PrefixTransitive<T>(a: seq<T>, b: seq<T>, c: seq<T>)
    requires a <= b <= c
    ensures a <= c
  {
  }

  // ---------------------------------------------------------------------------------------------
  // Where tokens come from
  // ---------------------------------------------------------------------------------------------

  /** The call that reads its clock at `at` is entitled to sign for (g, m): by a link minted for
      them, still live then, or by one of the first `bound` tokens, below its ceiling then. */
  predicate Entitled(cfg: Config, s: State, origin: Origin, g: JID, m: JID, at: int, bound: nat) {
    match origin
    case FromLink(key) =>
      && key in s.minted
      && var mint := s.minted[key];
         mint.at <= at && LinkLive(mint.rec, at) && ParsePair(cfg, mint.rec.group, mint.rec.member) == Some((g, m))
    case FromToken(p) =>
      && p < bound <= |s.tokens|
      && var parent := s.tokens[p];
         parent.checked <= at && Unix(at) < parent.claims.absolute
         && ParsePair(cfg, parent.claims.group, parent.claims.member) == Some((g, m))
  }

  predicate TokenOk(cfg: Config, s: State, k: nat)
    requires k < |s.tokens|
  {
    var t := s.tokens[k];
    && t.call < s.next && t.at <= t.checked <= s.now
    && Check(t.group, t.member, t.checked) in s.checks
    && Entitled(cfg, s, t.origin, t.group, t.member, t.at, k)
    && t.claims == MintClaims(cfg, t.group, t.member, t.at, Ceiling(cfg, s.tokens, t.origin, t.at))
  }

  predicate PhaseOk(cfg: Config, s: State, ph: Phase) {
    match ph
    case MintSwept(_, _) => true
    case MintReady(key, rec) => key in s.minted && s.minted[key].rec == rec
    case RedeemTaken(key, rec) => key in s.minted && s.minted[key].rec == rec
    case RefreshParsed(p) => p < |s.tokens|
    case Timed(o, g, m, at) => at <= s.now && Entitled(cfg, s, o, g, m, at, |s.tokens|)
    case Checked(o, g, m, at, checked) =>
      at <= checked <= s.now && Check(g, m, checked) in s.checks && Entitled(cfg, s, o, g, m, at, |s.tokens|)
  }

  predicate MintOk(cfg: Config, s: State, key: string)
    requires key in s.minted
  {
    var mint := s.minted[key];
    NONCE_PREFIX <= key && mint.at <= s.now && mint.rec == NewRecord(cfg, mint.group, mint.member, mint.at)
  }

  predicate RowOk(s: State, key: string)
    requires key in s.kv
  {
    && key in s.minted
    && s.kv[key].value == s.minted[key].rec
    && Unix(s.minted[key].at) <= s.kv[key].updated <= Unix(s.now)
  }

  ghost predicate TokensOk(cfg: Config, s: State) {
    forall k: nat :: k < |s.tokens| ==> TokenOk(cfg, s, k)
  }

  ghost predicate PhasesOk(cfg: Config, s: State) {
    forall c :: c in s.calls ==> c < s.next && PhaseOk(cfg, s, s.calls[c])
  }

  ghost predicate MintsOk(cfg: Config, s: State) {
    forall key :: key in s.minted ==> MintOk(cfg, s, key)
  }

  ghost predicate RowsOk(s: State) {
    forall key :: key in s.kv ==> RowOk(s, key)
  }

  ghost predicate Inv(cfg: Config, s: State) {
    TokensOk(cfg, s) && PhasesOk(cfg, s) && MintsOk(cfg, s) && RowsOk(s)
  }

  lemma TokenOkGrows(cfg: Config, s: State, s': State, k: nat)
    requires Extends(s, s') && k < |s.tokens| && TokenOk(cfg, s, k)
    ensures k < |s'.tokens| && TokenOk(cfg, s', k)
  {
  }

  lemma PhaseOkGrows(cfg: Config, s: State, s': State, ph: Phase)
    requires Extends(s, s') && PhaseOk(cfg, s, ph)
    ensures PhaseOk(cfg, s', ph)
  {
  }

  lemma RowOkGrows(s: State, s': State, key: string)
    requires Extends(s, s') && key in s.kv && RowOk(s, key)
    requires key in s'.kv && s'.kv[key] == s.kv[key]
    ensures RowOk(s', key)
  {
  }

  /** A step that changes at most the phase of call `c`, and adds only good mintings and rows,
      keeps the invariant. */
  lemma CallFrame(cfg: Config, s: State, s': State, c: nat)
    requires Inv(cfg, s) && Extends(s, s') && s'.tokens == s.tokens
    requires forall d :: d in s'.calls && d != c ==> d in s.calls && s'.calls[d] == s.calls[d]
    requires c in s'.calls ==> c < s'.next && PhaseOk(cfg, s', s'.calls[c])
    requires forall key :: key in s'.minted && key !in s.minted ==> MintOk(cfg, s', key)
    requires forall key :: key in s'.kv ==> (key in s.kv && s'.kv[key] == s.kv[key]) || RowOk(s', key)
    ensures Inv(cfg, s')
  {
    assert TokensOk(cfg, s') by {
      forall k: nat | k < |s'.tokens| ensures TokenOk(cfg, s', k) {
        TokenOkGrows(cfg, s, s', k);
      }
    }
    assert PhasesOk(cfg, s') by {
      forall d | d in s'.calls ensures d < s'.next && PhaseOk(cfg, s', s'.calls[d]) {
        if d != c {
          PhaseOkGrows(cfg, s, s', s.calls[d]);
        }
      }
    }
    assert MintsOk(cfg, s') by {
      forall key | key in s'.minted ensures MintOk(cfg, s', key) {
        if key in s.minted {
          assert MintOk(cfg, s, key);
        }
      }
    }
    assert RowsOk(s') by {
      forall key | key in s'.kv ensures RowOk(s', key) {
        if key in s.kv && s'.kv[key] == s.kv[key] {
          RowOkGrows(s, s', key);
        }
      }
    }
  }

  /** Steps that leave every remaining call where it was. */
  lemma OtherStepsKeepInv(cfg: Config, s: State, s': State)
    requires Inv(cfg, s)
    requires s' == s.(now := s'.now, world := s'.world, calls := s'.calls) && s.now <= s'.now
    requires forall c :: c in s'.calls ==> c in s.calls && s'.calls[c] == s.calls[c]
    ensures Inv(cfg, s')
  {
    assert Extends(s, s');
    CallFrame(cfg, s, s', s.next);
  }

  /** Moving one call to a phase that is right, possibly with more membership checks on record. */
  lemma SetPhaseKeepsInv(cfg: Config, s: State, c: nat, ph: Phase, checks: set<Check>)
    requires Inv(cfg, s) && s.checks <= checks && c < s.next
    requires PhaseOk(cfg, s.(checks := checks), ph)
    ensures Inv(cfg, s.(calls := s.calls[c := ph], checks := checks))
  {
    var s' := s.(calls := s.calls[c := ph], checks := checks);
    assert Extends(s, s');
    assert PhaseOk(cfg, s', ph) by {
      assert Extends(s.(checks := checks), s');
      PhaseOkGrows(cfg, s.(checks := checks), s', ph);
    }
    CallFrame(cfg, s, s', c);
  }

  lemma AppendKeepsInv(cfg: Config, s: State, t: Issued)
    requires Inv(cfg, s) && TokenOk(cfg, s.(tokens := s.tokens + [t]), |s.tokens|)
    ensures Inv(cfg, s.(tokens := s.tokens + [t]))
  {
    var s' := s.(tokens := s.tokens + [t]);
    assert Extends(s, s');
    assert TokensOk(cfg, s') by {
      forall j: nat | j < |s'.tokens| ensures TokenOk(cfg, s', j) {
        if j < |s.tokens| {
          TokenOkGrows(cfg, s, s', j);
        }
      }
    }
    assert PhasesOk(cfg, s') by {
      forall d | d in s'.calls ensures d < s'.next && PhaseOk(cfg, s', s'.calls[d]) {
        PhaseOkGrows(cfg, s, s', s.calls[d]);
      }
    }
    assert forall key :: key in s'.minted ==> MintOk(cfg, s, key);
    assert forall key :: key in s'.kv ==> RowOk(s, key);
  }

  lemma SignKeepsInv(cfg: Config, s: State, c: nat)
    requires Inv(cfg, s)
    ensures Inv(cfg, DoSign(cfg, s, c))
  {
    if c in s.calls && s.calls[c].Checked? {
      var s' := DoSign(cfg, s, c);
      var ph, k := s.calls[c], |s.tokens|;
      OtherStepsKeepInv(cfg, s, Drop(s, c));
      assert TokenOk(cfg, s', k) by {
        assert PhaseOk(cfg, s, ph);
        if ph.origin.FromToken? {
          assert s'.tokens[ph.origin.parent] == s.tokens[ph.origin.parent];
        }
      }
      AppendKeepsInv(cfg, Drop(s, c), s'.tokens[k]);
    }
  }

  /** A membership check goes on record only when the world answers yes there and then. */
  lemma NewCheckIsTrue(cfg: Config, gc: bool, s: State, step: Step, c: Check)
    requires c in Apply(cfg, gc, s, step).checks && c !in s.checks
    ensures c.at == s.now && Answer(s.world, c.group, c.member) == Ok(true)
  {
    match step
    case AskMembership(_) =>
    case _ =>
  }

  lemma BeginMintKeepsInv(cfg: Config, gc: bool, s: State, g: JID, m: JID, fault: Fault)
    requires Inv(cfg, s)
    ensures Inv(cfg, DoBeginMint(cfg, gc, s, g, m, fault))
  {
    if Usable(g, m) {
      var s' := DoBeginMint(cfg, gc, s, g, m, fault);
      assert Extends(s, s');
      CallFrame(cfg, s, s', s.next);
    }
  }

  lemma GenerateKeepsInv(cfg: Config, s: State, c: nat, nonce: string)
    requires Inv(cfg, s)
    ensures Inv(cfg, DoGenerate(cfg, s, c, nonce))
  {
    var s' := DoGenerate(cfg, s, c, nonce);
    if s' != s {
      assert Extends(s, s');
      assert NONCE_PREFIX <= NONCE_PREFIX + nonce;
      CallFrame(cfg, s, s', c);
    }
  }

  lemma StoreKeepsInv(cfg: Config, s: State, c: nat, fault: Fault)
    requires Inv(cfg, s)
    ensures Inv(cfg, DoStore(s, c, fault))
  {
    var s' := DoStore(s, c, fault);
    if c in s.calls && s.calls[c].MintReady? {
      assert Extends(s, s');
      var key := s.calls[c].key;
      assert key in s'.kv && s'.kv != s.kv ==> RowOk(s', key) by {
        assert PhaseOk(cfg, s, s.calls[c]) && MintOk(cfg, s, key);
      }
      CallFrame(cfg, s, s', c);
    }
  }

  /** Taking rows out keeps the rest. */
  lemma RemoveKeepsInv(cfg: Config, s: State, key: string, next: nat, taken: map<string, nat>)
    requires Inv(cfg, s) && s.next <= next && (forall k :: k in s.taken ==> k in taken)
    ensures Inv(cfg, s.(kv := Remove(s.kv, key), next := next, taken := taken))
    ensures Inv(cfg, s.(next := next, taken := taken))
  {
    forall s' | s' == s.(kv := Remove(s.kv, key), next := next, taken := taken) || s' == s.(next := next, taken := taken)
      ensures Inv(cfg, s')
    {
      assert Extends(s, s');
      CallFrame(cfg, s, s', s.next);
    }
  }

  lemma TakeKeepsInv(cfg: Config, s: State, nonce: string, fault: Fault)
    requires Inv(cfg, s)
    ensures Inv(cfg, DoTake(cfg, s, nonce, fault))
  {
    var key := NONCE_PREFIX + nonce;
    RemoveKeepsInv(cfg, s, key, s.next + 1, s.taken);
    if nonce != "" && fault == NoFault && key in s.kv {
      var taken := if cfg.singleUse then s.taken[key := s.next] else s.taken;
      var kv := if cfg.singleUse then Remove(s.kv, key) else s.kv;
      var bare := s.(kv := kv, next := s.next + 1, taken := taken);
      RemoveKeepsInv(cfg, s, key, s.next + 1, taken);
      var ph := RedeemTaken(key, s.kv[key].value);
      assert PhaseOk(cfg, bare, ph) by {
        assert RowOk(s, key);
      }
      SetPhaseKeepsInv(cfg, bare, s.next, ph, s.checks);
      assert DoTake(cfg, s, nonce, fault) == bare.(calls := bare.calls[s.next := ph], checks := s.checks);
    }
  }

  lemma BeginRefreshKeepsInv(cfg: Config, s: State, token: nat)
    requires Inv(cfg, s)
    ensures Inv(cfg, DoBeginRefresh(s, token))
  {
    RemoveKeepsInv(cfg, s, "", s.next + 1, s.taken);
    var s' := DoBeginRefresh(s, token);
    if s'.calls != s.calls {
      SetPhaseKeepsInv(cfg, s.(next := s.next + 1), s.next, RefreshParsed(token), s.checks);
    }
  }

  lemma ReadClockOnLink(cfg: Config, s: State, c: nat)
    requires Inv(cfg, s) && c in s.calls && s.calls[c].RedeemTaken?
    ensures Inv(cfg, DoReadClock(cfg, s, c))
  {
    var key, rec := s.calls[c].key, s.calls[c].rec;
    var pair := ParsePair(cfg, rec.group, rec.member);
    if LinkLive(rec, s.now) && pair.Some? {
      var ph := Timed(FromLink(key), pair.value.0, pair.value.1, s.now);
      assert PhaseOk(cfg, s, ph) by {
        assert PhaseOk(cfg, s, s.calls[c]) && MintOk(cfg, s, key);
      }
      SetPhaseKeepsInv(cfg, s, c, ph, s.checks);
    } else {
      OtherStepsKeepInv(cfg, s, Drop(s, c));
    }
  }

  lemma ReadClockOnToken(cfg: Config, s: State, c: nat)
    requires Inv(cfg, s) && c in s.calls && s.calls[c].RefreshParsed?
    ensures Inv(cfg, DoReadClock(cfg, s, c))
  {
    var p := s.calls[c].parent;
    assert PhaseOk(cfg, s, s.calls[c]);
    var claims := s.tokens[p].claims;
    var pair := ParsePair(cfg, claims.group, claims.member);
    if Unix(s.now) < claims.absolute && pair.Some? {
      var ph := Timed(FromToken(p), pair.value.0, pair.value.1, s.now);
      assert PhaseOk(cfg, s, ph) by {
        assert TokenOk(cfg, s, p);
      }
      SetPhaseKeepsInv(cfg, s, c, ph, s.checks);
    } else {
      OtherStepsKeepInv(cfg, s, Drop(s, c));
    }
  }

  lemma ReadClockKeepsInv(cfg: Config, s: State, c: nat)
    requires Inv(cfg, s)
    ensures Inv(cfg, DoReadClock(cfg, s, c))
  {
    if c in s.calls && s.calls[c].RedeemTaken? {
      ReadClockOnLink(cfg, s, c);
    } else if c in s.calls && s.calls[c].RefreshParsed? {
      ReadClockOnToken(cfg, s, c);
    }
  }

  lemma AskMembershipKeepsInv(cfg: Config, s: State, c: nat)
    requires Inv(cfg, s)
    ensures Inv(cfg, DoAskMembership(s, c))
  {
    if c in s.calls && s.calls[c].Timed? {
      var ph := s.calls[c];
      if Answer(s.world, ph.group, ph.member) == Ok(true) {
        var checks := s.checks + {Check(ph.group, ph.member, s.now)};
        var ph' := Checked(ph.origin, ph.group, ph.member, ph.at, s.now);
        assert PhaseOk(cfg, s.(checks := checks), ph') by {
          assert PhaseOk(cfg, s, ph);
        }
        SetPhaseKeepsInv(cfg, s, c, ph', checks);
      } else {
        OtherStepsKeepInv(cfg, s, Drop(s, c));
      }
    }
  }

  lemma StepKeepsInv(cfg: Config, gc: bool, s: State, step: Step)
    requires Inv(cfg, s)
    ensures Inv(cfg, Apply(cfg, gc, s, step))
  {
    match step
    case BeginMint(g, m, fault) => BeginMintKeepsInv(cfg, gc, s, g, m, fault);
    case Generate(c, nonce) => GenerateKeepsInv(cfg, s, c, nonce);
    case Store(c, fault) => StoreKeepsInv(cfg, s, c, fault);
    case Take(nonce, fault) => TakeKeepsInv(cfg, s, nonce, fault);
    case BeginRefresh(t) => BeginRefreshKeepsInv(cfg, s, t);
    case ReadClock(c) => ReadClockKeepsInv(cfg, s, c);
    case AskMembership(c) => AskMembershipKeepsInv(cfg, s, c);
    case SignToken(c) => SignKeepsInv(cfg, s, c);
    case Tick(d) => OtherStepsKeepInv(cfg, s, s.(now := s.now + d));
    case Change(w) => OtherStepsKeepInv(cfg, s, s.(world := w));
    case Restart => OtherStepsKeepInv(cfg, s, s.(calls := map[]));
    case Abandon(c) => OtherStepsKeepInv(cfg, s, Drop(s, c));
  }

  lemma {:induction false} RunKeepsInv(r: Run, gc: bool, i: nat)
    requires r.Valid() && i <= |r.steps|
    ensures Inv(r.cfg, r.StateWith(gc, i))
  {
    if i > 0 {
      RunKeepsInv(r, gc, i - 1);
      StepKeepsInv(r.cfg, gc, r.StateWith(gc, i - 1), r.steps[i - 1]);
    }
  }
}
