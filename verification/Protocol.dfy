/**
 The login protocol as a transition system. Calls to MintLink, Redeem and Refresh are broken at the
 points where another call, the clock, WhatsApp or a crash can come between: each store statement,
 each clock read, the membership query and the signing are separate steps of an unbounded set of
 calls in flight. A run is any sequence of steps.

 The machine works on claims rather than on token texts: under the ideal-MAC hypothesis a text that
 parses carries claims that were signed (`Token.AcceptedWasSigned`), so presenting a token is
 presenting one of `tokens`. Fresh randomness is the rule that `Generate` never repeats a nonce.
*/
module Protocol {
  import opened Wrappers
  import opened Time
  import opened Kv
  import opened Transport
  import opened Json
  import opened Webauth
  import Token

  // ---------------------------------------------------------------------------------------------
  // State
  // ---------------------------------------------------------------------------------------------

  /** What entitles a call to sign: a stored link, or an earlier token. */
  datatype Origin = FromLink(key: string) | FromToken(parent: nat)

  /** How far a call in flight has come. */
  datatype Phase =
    | MintSwept(group: JID, member: JID)
    | MintReady(key: string, rec: NonceRecord)
    | RedeemTaken(key: string, rec: NonceRecord)
    | RefreshParsed(parent: nat)
    | Timed(origin: Origin, group: JID, member: JID, at: int)
    | Checked(origin: Origin, group: JID, member: JID, at: int, checked: int)

  /** A generated link: for whom, when, by which call, and the record it stores. */
  datatype Minting = Minting(group: JID, member: JID, at: int, call: nat, rec: NonceRecord)

  /** A membership query that was answered yes. */
  datatype Check = Check(group: JID, member: JID, at: int)

  /** A signed token: its claims, what it came from, the call that signed it, and that call's clock
      read and membership check. */
  datatype Issued = Issued(claims: Claims, origin: Origin, call: nat, group: JID, member: JID, at: int, checked: int)

  /** The nonce rows of the store, decoded, and the calls in flight; `minted`, `taken`, `checks` and
      `tokens` record history and are never read back by the code. */
  datatype State = State(
    now: int,
    world: World,
    kv: Table<NonceRecord>,
    calls: map<nat, Phase>,
    next: nat,
    minted: map<string, Minting>,
    taken: map<string, nat>,
    checks: set<Check>,
    tokens: seq<Issued>)

  predicate Initial(s: State) {
    s.kv == map[] && s.calls == map[] && s.minted == map[] && s.taken == map[] && s.checks == {} && s.tokens == []
  }

  // ---------------------------------------------------------------------------------------------
  // Steps
  // ---------------------------------------------------------------------------------------------

  datatype Step =
    | Tick(d: nat)
    | Change(world: World)
    | Restart
    | Abandon(call: nat)
    | BeginMint(group: JID, member: JID, fault: Fault)
    | Generate(call: nat, nonce: string)
    | Store(call: nat, fault: Fault)
    | Take(nonce: string, fault: Fault)
    | BeginRefresh(token: nat)
    | ReadClock(call: nat)
    | AskMembership(call: nat)
    | SignToken(call: nat)

  function Drop(s: State, c: nat): State {
    s.(calls := s.calls - {c})
  }

  function Advance(s: State, c: nat, ph: Phase): State {
    s.(calls := s.calls[c := ph])
  }

  /** MintLink up to the sweep; `gc` is false in the system without sweeps. */
  function DoBeginMint(cfg: Config, gc: bool, s: State, g: JID, m: JID, fault: Fault): State {
    if !Usable(g, m) then s
    else
      s.(kv := if gc && fault != FailedBefore then Sweep(s.kv, NONCE_PREFIX, cfg.linkTtl, Unix(s.now)) else s.kv,
         calls := s.calls[s.next := MintSwept(g, m)], next := s.next + 1)
  }

  function DoGenerate(cfg: Config, s: State, c: nat, nonce: string): State {
    var key := NONCE_PREFIX + nonce;
    if c in s.calls && s.calls[c].MintSwept? && key !in s.minted then
      var rec := NewRecord(cfg, s.calls[c].group, s.calls[c].member, s.now);
      s.(minted := s.minted[key := Minting(s.calls[c].group, s.calls[c].member, s.now, c, rec)],
         calls := s.calls[c := MintReady(key, rec)])
    else s
  }

  function DoStore(s: State, c: nat, fault: Fault): State {
    if c in s.calls && s.calls[c].MintReady? then
      var s' := Drop(s, c);
      if fault == FailedBefore then s'
      else s'.(kv := Put(s.kv, s.calls[c].key, s.calls[c].rec, Unix(s.now)))
    else s
  }

  /** Redeem's first statement: Consume, or Get for a reusable link. */
  function DoTake(cfg: Config, s: State, nonce: string, fault: Fault): State {
    var key := NONCE_PREFIX + nonce;
    var s1 := s.(next := s.next + 1);
    if nonce == "" || fault == FailedBefore then s1
    else
      var s2 := if cfg.singleUse then s1.(kv := Remove(s.kv, key)) else s1;
      if fault != NoFault || key !in s.kv then s2
      else
        s2.(calls := s.calls[s.next := RedeemTaken(key, s.kv[key].value)],
            taken := if cfg.singleUse then s.taken[key := s.next] else s.taken)
  }

  /** Refresh after the token parsed: some signed claims that name a group and a member. */
  function DoBeginRefresh(s: State, token: nat): State {
    var s1 := s.(next := s.next + 1);
    if token < |s.tokens| && Token.Complete(s.tokens[token].claims) then
      s1.(calls := s.calls[s.next := RefreshParsed(token)])
    else s1
  }

  /** The clock read of Redeem and Refresh, the test it feeds, and the parsing of both JIDs. */
  function DoReadClock(cfg: Config, s: State, c: nat): State {
    if c in s.calls && s.calls[c].RedeemTaken? then
      var rec := s.calls[c].rec;
      var pair := ParsePair(cfg, rec.group, rec.member);
      if LinkLive(rec, s.now) && pair.Some?
      then Advance(s, c, Timed(FromLink(s.calls[c].key), pair.value.0, pair.value.1, s.now))
      else Drop(s, c)
    else if c in s.calls && s.calls[c].RefreshParsed? && s.calls[c].parent < |s.tokens| then
      var claims := s.tokens[s.calls[c].parent].claims;
      var pair := ParsePair(cfg, claims.group, claims.member);
      if Unix(s.now) < claims.absolute && pair.Some?
      then Advance(s, c, Timed(FromToken(s.calls[c].parent), pair.value.0, pair.value.1, s.now))
      else Drop(s, c)
    else s
  }

  function DoAskMembership(s: State, c: nat): State {
    if c in s.calls && s.calls[c].Timed? then
      var ph := s.calls[c];
      if Answer(s.world, ph.group, ph.member) == Ok(true)
      then Advance(s, c, Checked(ph.origin, ph.group, ph.member, ph.at, s.now))
             .(checks := s.checks + {Check(ph.group, ph.member, s.now)})
      else Drop(s, c)
    else s
  }

  /** The instant whose second becomes `abs`. */
  function Ceiling(cfg: Config, tokens: seq<Issued>, origin: Origin, at: int): int {
    match origin
    case FromLink(_) => at + cfg.sessionTtl
    case FromToken(p) => if p < |tokens| then tokens[p].claims.absolute * SECOND else at
  }

  function DoSign(cfg: Config, s: State, c: nat): State {
    if c in s.calls && s.calls[c].Checked? then
      var ph := s.calls[c];
      var claims := MintClaims(cfg, ph.group, ph.member, ph.at, Ceiling(cfg, s.tokens, ph.origin, ph.at));
      Drop(s, c).(tokens := s.tokens + [Issued(claims, ph.origin, c, ph.group, ph.member, ph.at, ph.checked)])
    else s
  }

  function Apply(cfg: Config, gc: bool, s: State, step: Step): State {
    match step
    case Tick(d) => s.(now := s.now + d)
    case Change(w) => s.(world := w)
    case Restart => s.(calls := map[])
    case Abandon(c) => Drop(s, c)
    case BeginMint(g, m, fault) => DoBeginMint(cfg, gc, s, g, m, fault)
    case Generate(c, nonce) => DoGenerate(cfg, s, c, nonce)
    case Store(c, fault) => DoStore(s, c, fault)
    case Take(nonce, fault) => DoTake(cfg, s, nonce, fault)
    case BeginRefresh(t) => DoBeginRefresh(s, t)
    case ReadClock(c) => DoReadClock(cfg, s, c)
    case AskMembership(c) => DoAskMembership(s, c)
    case SignToken(c) => DoSign(cfg, s, c)
  }

  /** A run: where it starts, and its steps. */
  datatype Run = Run(cfg: Config, init: State, steps: seq<Step>) {
    predicate Valid() {
      cfg.Valid() && Initial(init)
    }

    /** The state after the first `i` steps; `gc` as in `DoBeginMint`. */
    function StateWith(gc: bool, i: nat): State
      requires i <= |steps|
    {
      if i == 0 then init else Apply(cfg, gc, StateWith(gc, i - 1), steps[i - 1])
    }

    function At(i: nat): State
      requires i <= |steps|
    {
      StateWith(true, i)
    }
  }

  /** `Verify` accepts these claims in state `s`: they were signed, name a group and a member, and
      the clock is below both limits. */
  ghost predicate VerifyAccepts(s: State, claims: Claims) {
    (exists k :: 0 <= k < |s.tokens| && s.tokens[k].claims == claims)
    && Token.Complete(claims) && Unexpired(claims, s.now)
  }
}
