/** The pairing endpoint's cooldown (pairing/server.go). */
module Pairing {
  import opened Wrappers
  import opened Time

  const COOLDOWN := 2 * MINUTE

  datatype Reply = MethodNotAllowed | AlreadyPaired | TooManyRequests | PairFailed | Code(code: string)

  /** Attempts at least a cooldown apart. */
  predicate Spaced(times: seq<int>) {
    forall i :: 0 <= i < |times| - 1 ==> times[i] + COOLDOWN <= times[i + 1]
  }

  function InWindow(times: seq<int>, from: int, length: int): nat {
    if times == [] then 0
    else InWindow(times[..|times| - 1], from, length) + (if from <= times[|times| - 1] <= from + length then 1 else 0)
  }

  lemma {:induction false} NoneBefore(times: seq<int>, from: int, length: int)
    requires Spaced(times) && (times == [] || times[|times| - 1] < from)
    ensures InWindow(times, from, length) == 0
  {
    if times != [] {
      assert |times| > 1 ==> times[|times| - 2] < from;
      NoneBefore(times[..|times| - 1], from, length);
    }
  }

  lemma {:induction false} UpToTheLast(times: seq<int>, from: int, length: int)
    requires Spaced(times) && times != [] && from <= times[|times| - 1] <= from + length
    ensures InWindow(times, from, length) <= (times[|times| - 1] - from) / COOLDOWN + 1
  {
    var rest := times[..|times| - 1];
    if rest == [] || rest[|rest| - 1] < from {
      NoneBefore(rest, from, length);
    } else {
      assert rest[|rest| - 1] == times[|times| - 2] <= times[|times| - 1] - COOLDOWN;
      UpToTheLast(rest, from, length);
      CooldownStep(rest[|rest| - 1] - from, times[|times| - 1] - from);
    }
  }

  lemma CooldownStep(a: int, b: int)
    requires a + COOLDOWN <= b
    ensures a / COOLDOWN + 1 <= b / COOLDOWN
  {
  }

  /** Rate bound: in any window of length W, at most floor(W / 2 min) + 1 attempts. */
  lemma {:induction false} RateBound(times: seq<int>, from: int, length: nat)
    requires Spaced(times)
    ensures InWindow(times, from, length) <= length / COOLDOWN + 1
  {
    if times != [] {
      var last := times[|times| - 1];
      if last < from {
        NoneBefore(times, from, length);
      } else if last <= from + length {
        UpToTheLast(times, from, length);
      } else {
        RateBound(times[..|times| - 1], from, length);
      }
    }
  }

  /** `n` attempts, one every cooldown. */
  function Steady(from: int, n: nat): (times: seq<int>)
    ensures |times| == n && forall i :: 0 <= i < n ==> times[i] == from + i * COOLDOWN
  {
    seq(n, i => from + i * COOLDOWN)
  }

  lemma {:induction false} AllInWindow(from: int, n: nat, length: int)
    requires n > 0 ==> (n - 1) * COOLDOWN <= length
    ensures InWindow(Steady(from, n), from, length) == n
  {
    if n > 0 {
      assert Steady(from, n)[..n - 1] == Steady(from, n - 1);
      AllInWindow(from, n - 1, length);
    }
  }

  /** The bound is reached for every window length, by an attempt every two minutes from its start. */
  lemma RateBoundIsTight(from: int, length: nat)
    ensures exists times :: Spaced(times) && InWindow(times, from, length) == length / COOLDOWN + 1
  {
    var n := length / COOLDOWN + 1;
    AllInWindow(from, n, length);
    assert Spaced(Steady(from, n));
  }

  /** The server for one process life. `admitted` records when attempts passed the cooldown and
      `seen` the latest clock read; the mutex makes requests take turns between the two. */
  class Server {
    var lastPair: Option<int>
    ghost var admitted: seq<int>
    ghost var seen: int

    ghost predicate Valid()
      reads this
    {
      && Spaced(admitted)
      && (lastPair.None? <==> admitted == [])
      && (lastPair.Some? ==> lastPair.value == admitted[|admitted| - 1] <= seen)
    }

    constructor (now: int)
      ensures Valid() && admitted == [] && seen == now
    {
      lastPair, admitted, seen := None, [], now;
    }

    /** `checkedAt` and `recordedAt` are the two clock reads under the mutex. An attempt gets through
        exactly when it is a POST to an unpaired bot at least a cooldown after the last one that
        did, whether or not that one's pairing went on to fail. */
    method HandlePair(post: bool, paired: bool, checkedAt: int, recordedAt: int, result: Result<string, ()>)
      returns (reply: Reply)
      requires Valid() && seen <= checkedAt <= recordedAt
      modifies this
      ensures Valid() && (seen == old(seen) || seen == checkedAt || seen == recordedAt)
      ensures reply ==
        if !post then MethodNotAllowed
        else if paired then AlreadyPaired
        else if old(admitted) != [] && checkedAt < old(admitted)[|old(admitted)| - 1] + 120_000_000_000 then TooManyRequests
        else if result.Ok? then Code(result.value)
        else PairFailed
      ensures admitted == if reply.Code? || reply.PairFailed? then old(admitted) + [recordedAt] else old(admitted)
    {
      if !post {
        return MethodNotAllowed;
      }
      if paired {
        return AlreadyPaired;
      }
      seen := checkedAt;
      if lastPair.Some? && checkedAt - lastPair.value < COOLDOWN {
        return TooManyRequests;
      }
      seen := recordedAt;
      lastPair := Some(recordedAt);
      admitted := admitted + [recordedAt];
      match result
      case Ok(code) => return Code(code);
      case Err(_) => return PairFailed;
    }
  }
}
