/**
 Two users of one table: login links under "webauth:nonce:" and the scheduler's day markers under
 "sched:". Neither sees or disturbs the other, so a mixed run is two separate runs.
 */
module SharedKv {
  import opened Wrappers
  import opened Kv
  import Webauth
  import Calendar

  /** The marker of a job's day (bot/schedule.go). */
  function MarkerKey(name: string, date: string): string {
    "sched:" + name + ":" + date
  }

  lemma LastColon(a: string, b: string, c: string, d: string)
    requires Calendar.NoColon(b) && Calendar.NoColon(d)
    requires a + ":" + b == c + ":" + d
    ensures a == c && b == d
  {
    var s := a + ":" + b;
    assert s[|a|] == ':' && s[|c|] == ':' && |s| == |a| + 1 + |b| == |c| + 1 + |d|;
    assert forall i :: |c| < i < |s| ==> s[i] == d[i - |c| - 1];
    assert forall i :: |a| < i < |s| ==> s[i] == b[i - |a| - 1];
    assert a == s[..|a|] && c == s[..|c|] && b == s[|a| + 1..] && d == s[|c| + 1..];
  }

  /** Whatever the names contain, colons included, a marker belongs to one job name and one date. */
  lemma MarkerKeyIsInjective(name: string, date: string, name': string, date': string)
    requires Calendar.NoColon(date) && Calendar.NoColon(date')
    ensures MarkerKey(name, date) == MarkerKey(name', date') <==> name == name' && date == date'
  {
    if MarkerKey(name, date) == MarkerKey(name', date') {
      LastColon("sched:" + name, date, "sched:" + name', date');
      assert ("sched:" + name)[6..] == name && ("sched:" + name')[6..] == name';
    }
  }

  // ---------------------------------------------------------------------------------------------
  // The statements of the two users
  // ---------------------------------------------------------------------------------------------

  datatype User = Links | Markers

  datatype Op =
    | LinkSet(nonce: string, text: string, second: int, fault: Fault)
    | LinkGet(nonce: string, fault: Fault)
    | LinkTake(nonce: string, fault: Fault)
    | LinkSweep(age: int, second: int, fault: Fault)
    | MarkerGet(name: string, date: string, fault: Fault)
    | MarkerSet(name: string, date: string, second: int, fault: Fault)

  function UserOf(op: Op): User {
    if op.MarkerGet? || op.MarkerSet? then Markers else Links
  }

  function Apply(t: Table<string>, op: Op): Table<string> {
    match op
    case LinkSet(nonce, text, second, fault) =>
      if fault == FailedBefore then t else Put(t, Webauth.NONCE_PREFIX + nonce, text, second)
    case LinkGet(_, _) => t
    case LinkTake(nonce, fault) => if fault == FailedBefore then t else Remove(t, Webauth.NONCE_PREFIX + nonce)
    case LinkSweep(age, second, fault) =>
      if fault == FailedBefore then t else Sweep(t, Webauth.NONCE_PREFIX, age, second)
    case MarkerGet(_, _, _) => t
    case MarkerSet(name, date, second, fault) =>
      if fault == FailedBefore then t else Put(t, MarkerKey(name, date), "1", second)
  }

  /** What the caller is told, besides an error. */
  function Reply(t: Table<string>, op: Op): Option<string> {
    if op.fault != NoFault then None
    else
      match op
      case LinkGet(nonce, _) => Lookup(t, Webauth.NONCE_PREFIX + nonce)
      case LinkTake(nonce, _) => Lookup(t, Webauth.NONCE_PREFIX + nonce)
      case MarkerGet(name, date, _) => Lookup(t, MarkerKey(name, date))
      case _ => None
  }

  /** The two users' calls on the store are these statements. */
  method Execute(kv: KV, op: Op) returns (reply: Result<Option<string>, KvError>)
    modifies kv
    ensures kv.table == Apply(old(kv.table), op)
    ensures reply.Ok? <==> op.fault == NoFault
    ensures reply.Ok? ==> reply.value == Reply(old(kv.table), op)
  {
    match op
    case LinkSet(nonce, text, second, fault) =>
      var r := kv.Set(Webauth.NONCE_PREFIX + nonce, text, second, fault);
      reply := if r.Ok? then Ok(None) else Err(KvError);
    case LinkGet(nonce, fault) => reply := kv.Get(Webauth.NONCE_PREFIX + nonce, fault);
    case LinkTake(nonce, fault) => reply := kv.Consume(Webauth.NONCE_PREFIX + nonce, fault);
    case LinkSweep(age, second, fault) =>
      var r := kv.DeleteExpired(Webauth.NONCE_PREFIX, age, second, fault, false);
      reply := if r.Ok? then Ok(None) else Err(KvError);
    case MarkerGet(name, date, fault) => reply := kv.Get(MarkerKey(name, date), fault);
    case MarkerSet(name, date, second, fault) =>
      var r := kv.Set(MarkerKey(name, date), "1", second, fault);
      reply := if r.Ok? then Ok(None) else Err(KvError);
  }

  /** A sweep reaches keys in any case, so the links' share of the table is taken that widely. */
  predicate Owns(user: User, key: string) {
    match user
    case Links => StartsWithFolded(Webauth.NONCE_PREFIX, key)
    case Markers => "sched:" <= key
  }

  function Share(user: User, t: Table<string>): Table<string> {
    map key | key in t && Owns(user, key) :: t[key]
  }

  lemma NobodyOwnsBoth(key: string)
    ensures !(Owns(Links, key) && Owns(Markers, key))
  {
    if Owns(Markers, key) {
      assert key[0] == 's' && Fold(Webauth.NONCE_PREFIX[0]) != Fold(key[0]);
    }
  }

  lemma KeysAreOwned(nonce: string, name: string, date: string)
    ensures Owns(Links, Webauth.NONCE_PREFIX + nonce) && Owns(Markers, MarkerKey(name, date))
  {
  }

  /** A statement leaves the other user's share as it was. */
  lemma OthersShareIsKept(t: Table<string>, op: Op, user: User)
    requires UserOf(op) != user
    ensures Share(user, Apply(t, op)) == Share(user, t)
  {
    match op
    case LinkSet(nonce, _, _, _) =>
      KeysAreOwned(nonce, "", "");
      NobodyOwnsBoth(Webauth.NONCE_PREFIX + nonce);
    case LinkTake(nonce, _) =>
      KeysAreOwned(nonce, "", "");
      NobodyOwnsBoth(Webauth.NONCE_PREFIX + nonce);
    case LinkSweep(age, second, _) =>
      SweepKeepsMarkers(t, age, second);
    case MarkerSet(name, date, _, _) =>
      KeysAreOwned("", name, date);
      NobodyOwnsBoth(MarkerKey(name, date));
    case LinkGet(_, _) =>
    case MarkerGet(_, _, _) =>
  }

  /** No sweep of links removes a marker, whatever its age. */
  lemma SweepKeepsMarkers(t: Table<string>, age: int, second: int)
    ensures Share(Markers, Sweep(t, Webauth.NONCE_PREFIX, age, second)) == Share(Markers, t)
  {
  }

  predicate SameAt(t: Table<string>, u: Table<string>, key: string) {
    Lookup(t, key) == Lookup(u, key) && (key in t ==> t[key] == u[key])
  }

  lemma SharesAgree(t: Table<string>, u: Table<string>, op: Op, user: User)
    requires forall key :: Owns(user, key) ==> SameAt(t, u, key)
    ensures Share(user, Apply(t, op)) == Share(user, Apply(u, op))
  {
    forall key | Owns(user, key) ensures SameAt(Apply(t, op), Apply(u, op), key) {
      assert SameAt(t, u, key);
    }
  }

  /** A statement depends on its user's share alone, in what it does to that share and in what it
      replies. */
  lemma OwnShareDecides(t: Table<string>, u: Table<string>, op: Op, user: User)
    requires UserOf(op) == user && Share(user, t) == Share(user, u)
    ensures Share(user, Apply(t, op)) == Share(user, Apply(u, op))
    ensures Reply(t, op) == Reply(u, op)
  {
    forall key | Owns(user, key) ensures SameAt(t, u, key) {
      assert key in t <==> key in Share(user, t);
      assert key in u <==> key in Share(user, u);
    }
    SharesAgree(t, u, op, user);
    match op
    case LinkSet(nonce, text, second, _) => KeysAreOwned(nonce, "", "");
    case LinkGet(nonce, _) => KeysAreOwned(nonce, "", "");
    case LinkTake(nonce, _) => KeysAreOwned(nonce, "", "");
    case LinkSweep(age, second, _) =>
    case MarkerGet(name, date, _) => KeysAreOwned("", name, date);
    case MarkerSet(name, date, second, _) => KeysAreOwned("", name, date);
  }

  // ---------------------------------------------------------------------------------------------
  // Runs
  // ---------------------------------------------------------------------------------------------

  function RunOps(t: Table<string>, ops: seq<Op>): Table<string>
    decreases |ops|
  {
    if ops == [] then t else RunOps(Apply(t, ops[0]), ops[1..])
  }

  /** The replies a user gets in the course of a run. */
  function Replies(user: User, t: Table<string>, ops: seq<Op>): seq<Option<string>>
    decreases |ops|
  {
    if ops == [] then []
    else
      (if UserOf(ops[0]) == user then [Reply(t, ops[0])] else []) + Replies(user, Apply(t, ops[0]), ops[1..])
  }

  function Own(user: User, ops: seq<Op>): seq<Op> {
    if ops == [] then []
    else (if UserOf(ops[0]) == user then [ops[0]] else []) + Own(user, ops[1..])
  }

  /** Non-interference: in any interleaving, each user gets the replies, and leaves the rows, of a run
      in which it is alone on a table of its own. */
  lemma {:induction false} MixedRunsProject(user: User, t: Table<string>, u: Table<string>, ops: seq<Op>)
    requires Share(user, t) == Share(user, u)
    ensures Replies(user, t, ops) == Replies(user, u, Own(user, ops))
    ensures Share(user, RunOps(t, ops)) == Share(user, RunOps(u, Own(user, ops)))
    decreases |ops|
  {
    if ops != [] {
      var op, rest := ops[0], ops[1..];
      if UserOf(op) == user {
        OwnShareDecides(t, u, op, user);
        MixedRunsProject(user, Apply(t, op), Apply(u, op), rest);
        assert Own(user, ops)[0] == op && Own(user, ops)[1..] == Own(user, rest);
        assert UserOf(Own(user, ops)[0]) == user;
      } else {
        OthersShareIsKept(t, op, user);
        MixedRunsProject(user, Apply(t, op), u, rest);
        assert Own(user, ops) == Own(user, rest);
      }
    }
  }
}
