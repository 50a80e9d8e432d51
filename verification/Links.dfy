/** Links stay redeemable: nothing but its own taking or the end of its life removes a link's row. */
module Links {
  import opened Wrappers
  import opened Time
  import opened Kv
  import opened Transport
  import opened Json
  import opened Webauth
  import opened Protocol
  import opened Invariants
  import opened Completeness
  import Guarantees

  /** The step takes the row under `key` out, or writes it anew. */
  predicate TakesOrStores(cfg: Config, s: State, step: Step, key: string) {
    match step
    case Take(nonce, fault) => cfg.singleUse && nonce != "" && fault != FailedBefore && NONCE_PREFIX + nonce == key
    case Store(c, fault) => fault != FailedBefore && c in s.calls && s.calls[c].MintReady? && s.calls[c].key == key
    case _ => false
  }

  /** The step may sweep a row written in that second: its clock is past the link lifetime in whole seconds. */
  predicate SweepsLate(cfg: Config, s: State, step: Step, updated: int) {
    step.BeginMint? && Unix(s.now) > updated + cfg.linkTtl / 1_000_000_000
  }

  lemma StepKeepsRow(cfg: Config, s: State, step: Step, key: string)
    requires cfg.Valid() && key in s.kv
    requires !TakesOrStores(cfg, s, step, key) && !SweepsLate(cfg, s, step, s.kv[key].updated)
    ensures key in Apply(cfg, true, s, step).kv && Apply(cfg, true, s, step).kv[key] == s.kv[key]
  {
    match step
    case Take(nonce, fault) => assert SameRow(s.kv, DoTake(cfg, s, nonce, fault).kv, key);
    case Store(c, fault) => assert SameRow(s.kv, DoStore(s, c, fault).kv, key);
    case BeginMint(g, m, fault) => assert SameRow(s.kv, DoBeginMint(cfg, true, s, g, m, fault).kv, key);
    case ReadClock(c) => assert DoReadClock(cfg, s, c).kv == s.kv;
    case Generate(c, nonce) => assert DoGenerate(cfg, s, c, nonce).kv == s.kv;
    case _ =>
  }

  predicate Untouched(r: Run, i: nat, j: nat, key: string)
    requires i <= j <= |r.steps|
  {
    forall n :: i <= n < j ==> !TakesOrStores(r.cfg, r.At(n), r.steps[n], key)
  }

  predicate NoLateSweep(r: Run, i: nat, j: nat, updated: int)
    requires i <= j <= |r.steps|
  {
    forall n :: i <= n < j ==> !SweepsLate(r.cfg, r.At(n), r.steps[n], updated)
  }

  /** A row stays as it is for as long as no step takes or rewrites it and no sweep comes after its time,
      whatever happens to other links. */
  lemma {:induction false} RowStays(r: Run, i: nat, j: nat, key: string)
    requires r.Valid() && i <= j <= |r.steps| && key in r.At(i).kv
    requires Untouched(r, i, j, key) && NoLateSweep(r, i, j, r.At(i).kv[key].updated)
    ensures key in r.At(j).kv && r.At(j).kv[key] == r.At(i).kv[key]
    decreases j
  {
    if i < j {
      assert Untouched(r, i, j - 1, key) && NoLateSweep(r, i, j - 1, r.At(i).kv[key].updated);
      RowStays(r, i, j - 1, key);
      assert !TakesOrStores(r.cfg, r.At(j - 1), r.steps[j - 1], key);
      assert !SweepsLate(r.cfg, r.At(j - 1), r.steps[j - 1], r.At(i).kv[key].updated);
      StepKeepsRow(r.cfg, r.At(j - 1), r.steps[j - 1], key);
    }
  }

  /** With a whole-second lifetime a sweep is late for a row only once the link's expiry second is past. */
  lemma LateMeansExpired(r: Run, i: nat, n: nat, key: string)
    requires r.Valid() && WholeSeconds(r.cfg.linkTtl) && i <= n < |r.steps| && key in r.At(i).kv && key in r.At(i).minted
    requires SweepsLate(r.cfg, r.At(n), r.steps[n], r.At(i).kv[key].updated)
    ensures Unix(r.At(n).now) > Unix(r.At(i).minted[key].at + r.cfg.linkTtl)
  {
    RunKeepsInv(r, true, i);
    assert RowOk(r.At(i), key);
    UnixPlusWhole(r.At(i).minted[key].at, r.cfg.linkTtl);
  }

  /** A Redeem that finds no record signs nothing. */
  lemma MissSignsNothing(r: Run, begin: nat, clock: nat, query: nat, sign: nat, nonce: string)
    requires r.Valid() && begin < clock && begin < |r.steps| && Finishes(r, r.At(begin).next, clock, query, sign)
    requires r.steps[begin] == Take(nonce, NoFault) && Quiet(r, begin + 1, clock, r.At(begin).next)
    requires NONCE_PREFIX + nonce !in r.At(begin).kv
    ensures !SignedBy(r.At(sign + 1), r.At(begin).next)
  {
    var s, c := r.At(begin), r.At(begin).next;
    RunKeepsInv(r, true, begin);
    NewCallHasSignedNothing(r, begin);
    assert r.At(begin + 1) == DoTake(r.cfg, s, nonce, NoFault);
    assert c !in r.At(begin + 1).calls && c < r.At(begin + 1).next && r.At(begin + 1).tokens == s.tokens;
    QuietLeavesCall(r, begin + 1, clock, c);
    assert r.At(clock + 1) == r.At(clock);
    EndedCallSignsNothing(r, c, clock, query, sign);
  }

  /** A stored link can be redeemed for as long as it lives, whatever happens to other links. Its first
      Redeem signs exactly when the clock it reads is within the link's last second and the group says yes
      when asked; for lifetimes of whole seconds, and for others if no sweep comes in between that is late
      for the row. */
  lemma StoredLinkStaysRedeemable(r: Run, i: nat, begin: nat, clock: nat, query: nat, sign: nat, nonce: string)
    requires r.Valid() && i <= begin < clock && begin < |r.steps| && Finishes(r, r.At(begin).next, clock, query, sign)
    requires r.steps[begin] == Take(nonce, NoFault) && nonce != "" && Quiet(r, begin + 1, clock, r.At(begin).next)
    requires NONCE_PREFIX + nonce in r.At(i).kv && NONCE_PREFIX + nonce in r.At(i).minted
    requires Untouched(r, i, begin, NONCE_PREFIX + nonce)
    requires WholeSeconds(r.cfg.linkTtl) || NoLateSweep(r, i, begin, r.At(i).kv[NONCE_PREFIX + nonce].updated)
    requires var mint := r.At(i).minted[NONCE_PREFIX + nonce];
      r.cfg.RoundTrips(mint.group) && r.cfg.RoundTrips(mint.member)
    ensures var mint, c, now := r.At(i).minted[NONCE_PREFIX + nonce], r.At(begin).next, r.At(clock).now;
      && (SignedBy(r.At(sign + 1), c) <==>
            Unix(now) <= Unix(mint.at + r.cfg.linkTtl)
            && Answer(r.At(query).world, mint.group, mint.member) == Ok(true))
      && (SignedBy(r.At(sign + 1), c) ==>
            Signs(r, sign, c, FromLink(NONCE_PREFIX + nonce),
                  MintClaims(r.cfg, mint.group, mint.member, now, now + r.cfg.sessionTtl)))
  {
    var key := NONCE_PREFIX + nonce;
    MintingIsKept(r, i, begin, key);
    if key in r.At(begin).kv {
      RedeemSucceedsWithinTheLink(r, begin, clock, query, sign, nonce);
    } else {
      MissSignsNothing(r, begin, clock, query, sign, nonce);
      MissedLinkHasExpired(r, i, begin, clock, key);
    }
  }

  lemma MintingIsKept(r: Run, i: nat, j: nat, key: string)
    requires i <= j <= |r.steps| && key in r.At(i).minted
    ensures key in r.At(j).minted && r.At(j).minted[key] == r.At(i).minted[key]
  {
    RunExtends(r, true, i, j);
  }

  lemma MissedLinkHasExpired(r: Run, i: nat, j: nat, later: nat, key: string)
    requires r.Valid() && i <= j <= later <= |r.steps| && key in r.At(i).kv && key in r.At(i).minted && key !in r.At(j).kv
    requires Untouched(r, i, j, key)
    requires WholeSeconds(r.cfg.linkTtl) || NoLateSweep(r, i, j, r.At(i).kv[key].updated)
    ensures Unix(r.At(later).now) > Unix(r.At(i).minted[key].at + r.cfg.linkTtl)
  {
    var n := LostToALateSweep(r, i, j, key);
    LateMeansExpired(r, i, n, key);
    RunExtends(r, true, n, later);
  }

  /** A row that is gone without having been taken was swept late. */
  lemma LostToALateSweep(r: Run, i: nat, j: nat, key: string) returns (n: nat)
    requires r.Valid() && i <= j <= |r.steps| && key in r.At(i).kv && key !in r.At(j).kv && Untouched(r, i, j, key)
    ensures i <= n < j && SweepsLate(r.cfg, r.At(n), r.steps[n], r.At(i).kv[key].updated)
    ensures !NoLateSweep(r, i, j, r.At(i).kv[key].updated)
  {
    if NoLateSweep(r, i, j, r.At(i).kv[key].updated) {
      RowStays(r, i, j, key);
    }
    n :| i <= n < j && SweepsLate(r.cfg, r.At(n), r.steps[n], r.At(i).kv[key].updated);
  }
}
