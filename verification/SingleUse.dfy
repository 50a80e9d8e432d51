/**
 Single use: in single-use mode a stored record goes to at most one Redeem call, and that call signs
 at most one token, whatever else is in flight and whenever the process restarts.
*/
module SingleUse {
  import opened Wrappers
  import opened Time
  import opened Kv
  import opened Transport
  import opened Json
  import opened Webauth
  import opened Protocol
  import opened Invariants
  import Token

  /** The stored link a Redeem call in flight is working on. */
  function LinkOf(ph: Phase): Option<string> {
    match ph
    case RedeemTaken(key, _) => Some(key)
    case Timed(FromLink(key), _, _, _) => Some(key)
    case Checked(FromLink(key), _, _, _, _) => Some(key)
    case _ => None
  }

  /** Call numbers are handed out once. */
  ghost predicate Numbered(s: State) {
    && (forall c :: c in s.calls ==> c < s.next)
    && (forall k :: 0 <= k < |s.tokens| ==> s.tokens[k].call < s.next && s.tokens[k].call !in s.calls)
    && (forall i, j :: 0 <= i < j < |s.tokens| ==> s.tokens[i].call != s.tokens[j].call)
    && (forall key :: key in s.taken ==> s.taken[key] < s.next)
  }

  /** A link waiting to be stored belongs to the call that generated it, and is nowhere else yet. */
  ghost predicate Pending(s: State) {
    forall c :: c in s.calls && s.calls[c].MintReady? ==>
      var key := s.calls[c].key;
      key in s.minted && s.minted[key].call == c && key !in s.kv && key !in s.taken
  }

  /** A taken record is gone from the store and belongs to the call that took it. */
  ghost predicate Owned(s: State) {
    && (forall key :: key in s.taken ==> key in s.minted && key !in s.kv)
    && (forall c :: c in s.calls && LinkOf(s.calls[c]).Some? ==>
          LinkOf(s.calls[c]).value in s.taken && s.taken[LinkOf(s.calls[c]).value] == c)
    && (forall k :: 0 <= k < |s.tokens| && s.tokens[k].origin.FromLink? ==>
          s.tokens[k].origin.key in s.taken && s.taken[s.tokens[k].origin.key] == s.tokens[k].call)
  }

  ghost predicate Once(s: State) {
    Numbered(s) && Pending(s) && Owned(s)
  }

  /** Calls, rows and the like may always go away; call numbers may be skipped. */
  lemma ShrinkKeepsOnce(s: State, s': State)
    requires Once(s)
    requires s'.tokens == s.tokens && s'.taken == s.taken && s'.minted == s.minted && s.next <= s'.next
    requires forall c :: c in s'.calls ==> c in s.calls && s'.calls[c] == s.calls[c]
    requires forall key :: key in s'.kv ==> key in s.kv
    ensures Once(s')
  {
  }

  /** A new call that works on no link yet. */
  lemma BeginKeepsOnce(s: State, ph: Phase)
    requires Once(s) && LinkOf(ph).None? && !ph.MintReady?
    ensures Once(s.(calls := s.calls[s.next := ph], next := s.next + 1))
  {
  }

  lemma GenerateKeepsOnce(cfg: Config, s: State, c: nat, nonce: string)
    requires Once(s) && RowsOk(s)
    ensures Once(DoGenerate(cfg, s, c, nonce))
  {
  }

  lemma StoreKeepsOnce(s: State, c: nat, fault: Fault)
    requires Once(s)
    ensures Once(DoStore(s, c, fault))
  {
  }

  /** A Redeem call takes a record. */
  lemma HitKeepsOnce(s: State, key: string, rec: NonceRecord)
    requires Once(s) && key in s.kv && key in s.minted
    ensures Once(s.(kv := Remove(s.kv, key), calls := s.calls[s.next := RedeemTaken(key, rec)],
                    taken := s.taken[key := s.next], next := s.next + 1))
  {
  }

  lemma TakeKeepsOnce(cfg: Config, s: State, nonce: string, fault: Fault)
    requires cfg.singleUse && Once(s) && RowsOk(s)
    ensures Once(DoTake(cfg, s, nonce, fault))
  {
    var key := NONCE_PREFIX + nonce;
    if nonce != "" && fault == NoFault && key in s.kv {
      assert RowOk(s, key);
      HitKeepsOnce(s, key, s.kv[key].value);
    } else {
      ShrinkKeepsOnce(s, s.(next := s.next + 1));
      ShrinkKeepsOnce(s, s.(next := s.next + 1, kv := Remove(s.kv, key)));
    }
  }

  /** A call goes on to a phase on the same link. */
  lemma MoveKeepsOnce(s: State, c: nat, ph: Phase, checks: set<Check>)
    requires Once(s) && c in s.calls && LinkOf(ph) == LinkOf(s.calls[c]) && !ph.MintReady?
    ensures Once(s.(calls := s.calls[c := ph], checks := checks))
  {
  }

  lemma ReadClockKeepsOnce(cfg: Config, s: State, c: nat)
    requires Once(s)
    ensures Once(DoReadClock(cfg, s, c))
  {
    if c in s.calls && (s.calls[c].RedeemTaken? || s.calls[c].RefreshParsed?) {
      var s' := DoReadClock(cfg, s, c);
      if c in s'.calls {
        MoveKeepsOnce(s, c, s'.calls[c], s.checks);
        assert s' == s.(calls := s.calls[c := s'.calls[c]], checks := s.checks);
      } else {
        ShrinkKeepsOnce(s, s');
      }
    }
  }

  lemma AskMembershipKeepsOnce(s: State, c: nat)
    requires Once(s)
    ensures Once(DoAskMembership(s, c))
  {
    if c in s.calls && s.calls[c].Timed? {
      var s' := DoAskMembership(s, c);
      if c in s'.calls {
        MoveKeepsOnce(s, c, s'.calls[c], s'.checks);
        assert s' == s.(calls := s.calls[c := s'.calls[c]], checks := s'.checks);
      } else {
        ShrinkKeepsOnce(s, s');
      }
    }
  }

  lemma SignKeepsOnce(cfg: Config, s: State, c: nat)
    requires Once(s)
    ensures Once(DoSign(cfg, s, c))
  {
  }

  lemma BeginMintKeepsOnce(cfg: Config, gc: bool, s: State, g: JID, m: JID, fault: Fault)
    requires Once(s)
    ensures Once(DoBeginMint(cfg, gc, s, g, m, fault))
  {
  }

  lemma BeginRefreshKeepsOnce(s: State, token: nat)
    requires Once(s)
    ensures Once(DoBeginRefresh(s, token))
  {
    if token < |s.tokens| && Token.Complete(s.tokens[token].claims) {
      BeginKeepsOnce(s, RefreshParsed(token));
    } else {
      ShrinkKeepsOnce(s, s.(next := s.next + 1));
    }
  }

  lemma StepKeepsOnce(cfg: Config, gc: bool, s: State, step: Step)
    requires cfg.singleUse && RowsOk(s) && Once(s)
    ensures Once(Apply(cfg, gc, s, step))
  {
    match step
    case BeginMint(g, m, fault) => BeginMintKeepsOnce(cfg, gc, s, g, m, fault);
    case Generate(c, nonce) => GenerateKeepsOnce(cfg, s, c, nonce);
    case Store(c, fault) => StoreKeepsOnce(s, c, fault);
    case Take(nonce, fault) => TakeKeepsOnce(cfg, s, nonce, fault);
    case BeginRefresh(t) => BeginRefreshKeepsOnce(s, t);
    case ReadClock(c) => ReadClockKeepsOnce(cfg, s, c);
    case AskMembership(c) => AskMembershipKeepsOnce(s, c);
    case SignToken(c) => SignKeepsOnce(cfg, s, c);
    case Tick(d) => ShrinkKeepsOnce(s, s.(now := s.now + d));
    case Change(w) => ShrinkKeepsOnce(s, s.(world := w));
    case Restart => ShrinkKeepsOnce(s, s.(calls := map[]));
    case Abandon(c) => ShrinkKeepsOnce(s, Drop(s, c));
  }

  lemma {:induction false} RunKeepsOnce(r: Run, gc: bool, i: nat)
    requires r.Valid() && r.cfg.singleUse && i <= |r.steps|
    ensures Once(r.StateWith(gc, i))
  {
    if i > 0 {
      RunKeepsOnce(r, gc, i - 1);
      RunKeepsInv(r, gc, i - 1);
      StepKeepsOnce(r.cfg, gc, r.StateWith(gc, i - 1), r.steps[i - 1]);
    }
  }

  /** In single-use mode a link yields at most one token over a whole run, and that one was signed on
      a clock read no later than the last second of the link's life; nobody is left working on the
      link and its record is gone. */
  lemma LinkRedeemsOnce(r: Run, i: nat, k: nat)
    requires r.Valid() && r.cfg.singleUse && i <= |r.steps|
    requires k < |r.At(i).tokens| && r.At(i).tokens[k].origin.FromLink?
    ensures var s, t := r.At(i), r.At(i).tokens[k];
      && (forall j :: 0 <= j < |s.tokens| && s.tokens[j].origin == t.origin ==> j == k)
      && t.origin.key !in s.kv
      && (forall c :: c in s.calls ==> LinkOf(s.calls[c]) != Some(t.origin.key))
      && t.origin.key in s.minted
      && Unix(t.at) <= Unix(s.minted[t.origin.key].at + r.cfg.linkTtl)
  {
    RunKeepsOnce(r, true, i);
    RunKeepsInv(r, true, i);
    var s := r.At(i);
    assert TokenOk(r.cfg, s, k);
    assert MintOk(r.cfg, s, s.tokens[k].origin.key);
  }

  /** Of all the Redeem calls ever in flight on one link, one at most holds its record. */
  lemma OneCallHoldsTheRecord(r: Run, i: nat, c: nat, d: nat)
    requires r.Valid() && r.cfg.singleUse && i <= |r.steps|
    requires c in r.At(i).calls && d in r.At(i).calls
    requires LinkOf(r.At(i).calls[c]).Some? && LinkOf(r.At(i).calls[c]) == LinkOf(r.At(i).calls[d])
    ensures c == d
  {
    RunKeepsOnce(r, true, i);
  }

  /** Once a Redeem call has been handed a record, no later statement of the run finds it, restarts or
      not. */
  lemma RecordIsHandedOutOnce(r: Run, i: nat, j: nat, nonce: string)
    requires r.Valid() && r.cfg.singleUse && i < j <= |r.steps|
    requires r.steps[i] == Take(nonce, NoFault) && nonce != "" && NONCE_PREFIX + nonce in r.At(i).kv
    ensures NONCE_PREFIX + nonce !in r.At(j).kv
  {
    assert r.At(i + 1) == DoTake(r.cfg, r.At(i), nonce, NoFault);
    RunExtends(r, true, i + 1, j);
    RunKeepsOnce(r, true, j);
  }
}
